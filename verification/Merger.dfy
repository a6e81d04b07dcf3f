/** The merger itself, proved against Merging.Step's parts. Its heap is the set of buffered events
with container/heap's contract: Pop takes out the least. */
module Merger {
  import opened Domain
  import opened Feed
  import M = Merging
  import P = Parts

  ghost predicate Ordered(s: set<EntityEvent>) {
    forall d, e :: d in s && e in s && d != e ==> Before(d, e) || Before(e, d)
  }

  ghost predicate IsLeast(m: EntityEvent, s: set<EntityEvent>) {
    m in s && forall e :: e in s && e != m ==> Before(m, e)
  }

  ghost predicate Sorts(t: seq<EntityEvent>, s: set<EntityEvent>) {
    InOrder(t) && forall e :: e in t <==> e in s
  }

  ghost predicate Apart(s: set<EntityEvent>, e: EntityEvent) {
    forall x :: x in s ==> Before(x, e) || Before(e, x)
  }

  lemma SortSetSorts(s: set<EntityEvent>)
    requires Ordered(s)
    ensures Sorts(SortSet(s), s)
  {
    SortSetIsSorted(s);
  }

  lemma SortsIsUnique(t: seq<EntityEvent>, s: set<EntityEvent>)
    requires Ordered(s) && Sorts(t, s)
    ensures t == SortSet(s)
  {
    SortSetIsSorted(s);
    hide Ordered;
    SameEventsSameList(t, SortSet(s));
  }

  lemma SortedPop(s: set<EntityEvent>, m: EntityEvent)
    requires Ordered(s) && IsLeast(m, s)
    ensures SortSet(s) == [m] + SortSet(s - {m})
  {
    SortSetIsSorted(s - {m});
    var t := [m] + SortSet(s - {m});
    assert t[1..] == SortSet(s - {m});
    forall e ensures e in t <==> e in s { assert e in t <==> e == m || e in t[1..]; }
    SortsIsUnique(t, s);
  }

  lemma InsertSorts(t: seq<EntityEvent>, s: set<EntityEvent>, e: EntityEvent)
    requires Sorts(t, s) && Apart(s, e)
    ensures Sorts(Insert(t, e), s + {e})
  {
    hide Before, Insert, InOrder;
    InsertInOrder(t, e);
    forall x ensures x in Insert(t, e) <==> x in s + {e} { InsertHas(t, e, x); }
  }

  lemma OrderedPart(s: set<EntityEvent>, e: EntityEvent)
    requires Ordered(s + {e}) && e !in s
    ensures Ordered(s) && Apart(s, e)
  {
    hide Before;
    forall x | x in s ensures x in s + {e} && e in s + {e} {}
  }

  lemma SortedPush(s: set<EntityEvent>, e: EntityEvent)
    requires Ordered(s + {e}) && e !in s
    ensures SortSet(s + {e}) == Insert(SortSet(s), e)
  {
    hide SortSet, Insert, Ordered, Sorts, Apart;
    OrderedPart(s, e);
    SortSetSorts(s);
    InsertSorts(SortSet(s), s, e);
    SortsIsUnique(Insert(SortSet(s), e), s + {e});
  }

  lemma NothingDue(low: Pos)
    ensures M.Due(SortSet({}), low) == [] && M.NotDue(SortSet({}), low) == SortSet({})
  {}

  /** Releasing stops at the least event when it is not due, and otherwise goes on without it. */
  lemma DueByPopping(s: set<EntityEvent>, m: EntityEvent, low: Pos)
    requires Ordered(s) && IsLeast(m, s)
    ensures if low.Less(m.At())
            then && M.Due(SortSet(s), low) == []
                 && M.NotDue(SortSet(s), low) == SortSet(s)
            else && M.Due(SortSet(s), low) == [m] + M.Due(SortSet(s - {m}), low)
                 && M.NotDue(SortSet(s), low) == M.NotDue(SortSet(s - {m}), low)
  {
    SortedPop(s, m);
    hide SortSet, Ordered, IsLeast;
    assert ([m] + SortSet(s - {m}))[1..] == SortSet(s - {m});
  }

  lemma ListsItself(t: seq<EntityEvent>, s: set<EntityEvent>)
    requires InOrder(t) && s == set e | e in t
    ensures Ordered(s) && SortSet(s) == t
  {
    forall d, e | d in s && e in s && d != e ensures Before(d, e) || Before(e, d) {
      var i :| 0 <= i < |t| && t[i] == d;
      var j :| 0 <= j < |t| && t[j] == e;
      if i < j { P.InOrderAt(t, i, j); } else { P.InOrderAt(t, j, i); }
    }
    hide Before, InOrder, Ordered;
    SortsIsUnique(t, s);
  }

  method Least(s: set<EntityEvent>) returns (m: EntityEvent)
    requires s != {} && Ordered(s)
    ensures IsLeast(m, s)
  {
    m :| m in s;
    var rest := s - {m};
    while rest != {}
      invariant rest <= s && m in s - rest
      invariant forall e :: e in s - rest && e != m ==> Before(m, e)
      decreases rest
    {
      var e :| e in rest;
      ghost var m0 := m;
      if Before(e, m) { m := e; }
      forall x | x in s - (rest - {e}) && x != m ensures Before(m, x) {
        assert x in s && m0 in s && e in s;
        if x != e { assert x == m0 || Before(m0, x); }
      }
      rest := rest - {e};
    }
  }

  class Merger {
    var wm: seq<Pos>
    var recv: seq<Mark>
    var buf: set<EntityEvent>
    var last: ReleaseKey
    var late: nat
    var dups: nat

    ghost predicate Valid()
      reads this
    {
      && |wm| == |recv| && Ordered(buf)
      && forall e :: e in buf ==> e.src < |recv| && !e.MarkOf().After(recv[e.src])
    }

    ghost function Value(): M.State
      reads this
    {
      M.State(wm, recv, SortSet(buf), last, late, dups)
    }

    constructor (sources: nat)
      ensures Valid() && Value() == M.Fresh(sources)
    {
      wm, recv := seq(sources, i => MIN_POS), seq(sources, i => Mark(-1, 0));
      buf, last, late, dups := {}, ReleaseKey(MIN_POS, 0, -1, -1), 0, 0;
    }

    /** The least of the sources' watermarks, and the greatest position if there are no sources. */
    method LowMark() returns (low: Pos)
      ensures low == M.Low(wm)
    {
      low := MAX_POS;
      for i := 0 to |wm|
        invariant M.LowFrom(wm[i..], low) == M.Low(wm)
      {
        if wm[i].Less(low) { low := wm[i]; }
        assert wm[i..][0] == wm[i] && wm[i..][1..] == wm[i + 1..];
      }
    }

    /** Takes an event in: kept for later, ignored if seen before, or handed back because its turn has passed. */
    method Add(e: EntityEvent) returns (isLate: bool)
      requires Valid() && e.src < |wm|
      modifies this
      ensures Valid() && M.Effect(Value(), if isLate then [e] else []) == M.Add(old(Value()), e)
    {
      if !e.MarkOf().After(recv[e.src]) {
        dups := dups + 1;
        return false;
      }
      var low := LowMark();
      var key := ReleaseKeyOf(e);
      assert e !in buf && Ordered(buf + {e});
      recv := recv[e.src := e.MarkOf()];
      if !last.Less(key) || !low.Less(e.At()) {
        late := late + 1;
        return true;
      }
      SortedPush(buf, e);
      buf := buf + {e};
      return false;
    }

    /** Raises one source's watermark, unless that would lower it. */
    method Watermark(src: nat, pos: Pos)
      requires Valid() && src < |wm|
      modifies this
      ensures Valid() && Value() == M.Advance(old(Value()), src, pos)
    {
      if wm[src].Less(pos) { wm := wm[src := pos]; }
    }

    /** Removes what is due, least first, and leaves the rest. */
    method Release() returns (events: seq<EntityEvent>)
      requires Valid()
      modifies this
      ensures Valid() && M.Effect(Value(), events) == M.Release(old(Value()))
    {
      var low := LowMark();
      NothingDue(low);
      hide SortSet, M.Due, M.NotDue, IsLeast;
      events := [];
      ghost var was := Value();
      while buf != {}
        invariant Valid() && wm == was.wm && recv == was.recv && late == was.late && dups == was.dups
        invariant events + M.Due(SortSet(buf), low) == M.Due(was.buf, low)
        invariant M.NotDue(SortSet(buf), low) == M.NotDue(was.buf, low)
        invariant last == if events == [] then was.last else ReleaseKeyOf(events[|events| - 1])
        decreases buf
      {
        var e := Least(buf);
        DueByPopping(buf, e, low);
        if low.Less(e.At()) { return; }
        buf, last := buf - {e}, ReleaseKeyOf(e);
        events := events + [e];
      }
    }

    /** Writes the state, the buffered events in release order. */
    method Encode() returns (img: M.State)
      requires Valid()
      ensures img == Value() && Snapshotted(img)
    {
      hide IsLeast, SortSet, Ordered;
      var left := buf;
      var sorted: seq<EntityEvent> := [];
      EmptySorts();
      while left != {}
        invariant left <= buf && Ordered(left) && sorted + SortSet(left) == SortSet(buf)
        decreases left
      {
        SmallerOrdered(buf, left);
        var e := Least(left);
        SortedPop(left, e);
        SmallerOrdered(left, left - {e});
        sorted, left := sorted + [e], left - {e};
      }
      assert sorted + [] == sorted;
      img := M.State(wm, recv, sorted, last, late, dups);
      SortSetSorts(buf);
      BufferedAreReceived(buf, img);
    }

    /** Replaces the state by a snapshot's; an error for one that tracks another number of sources. */
    method Decode(img: M.State) returns (ok: bool)
      requires Valid()
      modifies this
      ensures ok == (|img.wm| == old(|wm|))
      ensures ok && Snapshotted(img) ==> Valid() && Value() == img
      ensures !ok ==> Valid() && Value() == old(Value())
    {
      ok := |img.wm| == |wm|;
      if !ok { return; }
      wm, recv, last, late, dups := img.wm, img.recv, img.last, img.late, img.dups;
      buf := {};
      for i := 0 to |img.buf|
        invariant buf == set e | e in img.buf[..i]
        invariant wm == img.wm && recv == img.recv && last == img.last && late == img.late && dups == img.dups
      {
        assert img.buf[..i + 1] == img.buf[..i] + [img.buf[i]];
        buf := buf + {img.buf[i]};
      }
      assert img.buf[..|img.buf|] == img.buf;
      if Snapshotted(img) { ListsItself(img.buf, buf); }
    }
  }

  /** The state of a merger: one mark per source, the buffered events received and in release order. */
  ghost predicate Snapshotted(m: M.State) {
    && |m.wm| == |m.recv| && InOrder(m.buf)
    && forall e :: e in m.buf ==> e.src < |m.recv| && !e.MarkOf().After(m.recv[e.src])
  }

  lemma EmptySorts()
    ensures SortSet({}) == []
  {}

  lemma SmallerOrdered(s: set<EntityEvent>, t: set<EntityEvent>)
    requires Ordered(s) && t <= s
    ensures Ordered(t)
  {}

  lemma BufferedAreReceived(s: set<EntityEvent>, m: M.State)
    requires Sorts(m.buf, s) && |m.wm| == |m.recv|
    requires forall e :: e in s ==> e.src < |m.recv| && !e.MarkOf().After(m.recv[e.src])
    ensures Snapshotted(m)
  {
    hide InOrder;
  }
}
