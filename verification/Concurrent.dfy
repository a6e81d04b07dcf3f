/** Calls on a shared velocity store, interleaved step by step (internal/features/concurrent.go). Operations of its map
are atomic; a mutex guards each entry, so what a call does to one under it is one step. */
module Concurrent {
  import opened Numbers
  import opened Domain
  import opened Windows
  import opened Velocity

  datatype Call = Read(k: Key, now: int) | ReadAdd(k: Key, ev: Event) | EvictIdle(now: int)

  /** An entry of the map. One without a history is fresh: created, no event yet. */
  datatype Cell = Cell(key: Key, h: Option<History>, dead: bool)

  /** Where a call is: looking its key up, holding an entry's pointer, holding its mutex, or done. */
  datatype At =
    | Begin | Missing | Loaded(c: nat) | Locked(c: nat)
    | Marked(c: nat)                      // evicting: dead, about to be deleted
    | Leaving(c: nat)                     // about to unlock and look again
    | Answered(c: nat, a: Aggregates)     // about to unlock and return
    | Done(a: Aggregates) | Swept

  /** since is history: how much had been linearised when the call was made. */
  datatype Op = Op(call: Call, at: At, since: nat, visited: set<Key>, n: nat)

  /** What the calls have done so far, in the order they took effect. */
  datatype Lin = Recorded(op: nat, k: Key, ev: Event, a: Aggregates) | Removed(op: nat, k: Key, now: int)

  datatype State = State(m: map<Key, nat>, cells: seq<Cell>, locks: map<nat, nat>, ops: map<nat, Op>, log: seq<Lin>)

  const EMPTY := State(map[], [], map[], map[], [])

  // ---- steps -----------------------------------------------------------------------------

  datatype Step =
    | Invoke(t: nat, call: Call) | Load(t: nat) | LoadOrStore(t: nat) | Lock(t: nat) | Act(t: nat) | Delete(t: nat)
    | Unlock(t: nat)
    | Pick(t: nat, k: Key) | Finish(t: nat)

  predicate Enabled(s: State, x: Step) {
    if x.Invoke? then x.t !in s.ops
    else
      x.t in s.ops &&
      var op := s.ops[x.t];
      match x
      case Load(_) => op.at.Begin? && !op.call.EvictIdle?
      case LoadOrStore(_) => op.at.Missing? && !op.call.EvictIdle?
      case Lock(_) => op.at.Loaded? && op.at.c !in s.locks
      case Act(_) => op.at.Locked? && op.at.c < |s.cells|
      case Delete(_) => op.at.Marked? && op.at.c < |s.cells|
      case Unlock(_) => op.at.Leaving? || op.at.Answered?
      case Pick(_, k) => op.at.Begin? && op.call.EvictIdle? && k in s.m && k !in op.visited
      case Finish(_) => op.at.Begin? && op.call.EvictIdle?
  }

  function Moved(s: State, t: nat, at: At): State
    requires t in s.ops
  {
    s.(ops := s.ops[t := s.ops[t].(at := at)])
  }

  /** The first lookup: a read of an unknown key answers at once. */
  function Loading(s: State, t: nat): State
    requires t in s.ops && !s.ops[t].call.EvictIdle?
  {
    var call := s.ops[t].call;
    if call.k in s.m then Moved(s, t, Loaded(s.m[call.k]))
    else if call.Read? then Moved(s, t, Done(Unseen(call.k.entity)))
    else Moved(s, t, Missing)
  }

  /** The entry another call stored meanwhile, or a new fresh one. */
  function Storing(s: State, t: nat): State
    requires t in s.ops && !s.ops[t].call.EvictIdle?
  {
    var k := s.ops[t].call.k;
    if k in s.m then Moved(s, t, Loaded(s.m[k]))
    else Moved(s.(m := s.m[k := |s.cells|], cells := s.cells + [Cell(k, None, false)]), t, Loaded(|s.cells|))
  }

  predicate Idle(h: History, now: int) { now - h.last >= IDLE_TTL }

  function ReadLocked(s: State, t: nat): State
    requires t in s.ops && s.ops[t].call.Read? && s.ops[t].at.Locked? && s.ops[t].at.c < |s.cells|
  {
    var call, c := s.ops[t].call, s.ops[t].at.c;
    var cell := s.cells[c];
    Moved(s, t, Answered(c, if cell.dead || cell.h.None? || Idle(cell.h.value, call.now) then Unseen(call.k.entity)
                            else View(cell.h.value, TracksDistinct(call.k.entity), call.now)))
  }

  /** Adds an event, unless the entry was evicted between the lookup and the lock. */
  function AddLocked(s: State, t: nat): State
    requires t in s.ops && s.ops[t].call.ReadAdd? && s.ops[t].at.Locked? && s.ops[t].at.c < |s.cells|
  {
    var call, c := s.ops[t].call, s.ops[t].at.c;
    var cell := s.cells[c];
    if cell.dead then Moved(s, t, Leaving(c))
    else
      var starts := cell.h.None? || Idle(cell.h.value, call.ev.time);
      var a := if starts then Unseen(call.k.entity)
        else View(cell.h.value, TracksDistinct(call.k.entity), call.ev.time);
      var h := if starts then Start(call.ev) else Record(cell.h.value, call.ev);
      Moved(s.(cells := s.cells[c := cell.(h := Some(h))], log := s.log + [Recorded(t, call.k, call.ev, a)]), t,
        Answered(c, a))
  }

  /** Marks an idle entry dead and counts it; one another sweep has marked already is counted again. */
  function EvictLocked(s: State, t: nat): State
    requires t in s.ops && s.ops[t].call.EvictIdle? && s.ops[t].at.Locked? && s.ops[t].at.c < |s.cells|
  {
    var call, c := s.ops[t].call, s.ops[t].at.c;
    var cell := s.cells[c];
    if cell.h.None? || !Idle(cell.h.value, call.now) then Moved(s, t, Leaving(c))
    else
      var log := if cell.dead then s.log else s.log + [Removed(t, cell.key, call.now)];
      var z := Moved(s.(cells := s.cells[c := cell.(dead := true)], log := log), t, Marked(c));
      z.(ops := z.ops[t := z.ops[t].(n := z.ops[t].n + 1)])
  }

  /** Deletes the key if it still maps to this entry. */
  function Deleting(s: State, t: nat): State
    requires t in s.ops && s.ops[t].at.Marked? && s.ops[t].at.c < |s.cells|
  {
    var c := s.ops[t].at.c;
    var k := s.cells[c].key;
    Moved(s.(m := if k in s.m && s.m[k] == c then s.m - {k} else s.m), t, Leaving(c))
  }

  function Unlocking(s: State, t: nat): State
    requires t in s.ops && (s.ops[t].at.Leaving? || s.ops[t].at.Answered?)
  {
    var at := s.ops[t].at;
    Moved(s.(locks := s.locks - {at.c}), t, if at.Leaving? then Begin else Done(at.a))
  }

  function Apply(s: State, x: Step): State
    requires Enabled(s, x)
  {
    match x
    case Invoke(t, call) => s.(ops := s.ops[t := Op(call, Begin, |s.log|, {}, 0)])
    case Load(t) => Loading(s, t)
    case LoadOrStore(t) => Storing(s, t)
    case Lock(t) => Moved(s.(locks := s.locks[s.ops[t].at.c := t]), t, Locked(s.ops[t].at.c))
    case Act(t) =>
      if s.ops[t].call.Read? then ReadLocked(s, t) else if s.ops[t].call.ReadAdd? then AddLocked(s, t)
        else EvictLocked(s, t)
    case Delete(t) => Deleting(s, t)
    case Unlock(t) => Unlocking(s, t)
    case Pick(t, k) =>
      var op := s.ops[t];
      s.(ops := s.ops[t := op.(at := Loaded(s.m[k]), visited := op.visited + {k})])
    case Finish(t) => Moved(s, t, Swept)
  }

  // ---- what the log amounts to -------------------------------------------------------------

  /** The sequential store after the first n of the log. */
  function StoreOf(log: seq<Lin>, n: nat): Store
    requires n <= |log|
  {
    if n == 0 then map[]
    else
      var st := StoreOf(log, n - 1);
      match log[n - 1]
      case Recorded(_, k, ev, _) => st[k := Velocity.Recorded(Get(st, k), ev)]
      case Removed(_, k, _) => st - {k}
  }

  /** What the sequential store would have answered at this point. */
  function AnswerAt(log: seq<Lin>, n: nat, k: Key, now: int): Aggregates
    requires n <= |log|
  {
    Answer(Get(StoreOf(log, n), k), k.entity, now)
  }

  lemma {:induction false} StoreOfPrefix(log: seq<Lin>, more: seq<Lin>, n: nat)
    requires log <= more && n <= |log|
    ensures StoreOf(log, n) == StoreOf(more, n)
    decreases n
  {
    if n > 0 { StoreOfPrefix(log, more, n - 1); }
  }

  // ---- the invariant -----------------------------------------------------------------------

  /** The histories of the live entries the map serves. */
  ghost function Serving(s: State): Store {
    map k | k in s.m && s.m[k] < |s.cells| && !s.cells[s.m[k]].dead && s.cells[s.m[k]].h.Some? ::
      s.cells[s.m[k]].h.value
  }

  predicate HasCell(at: At) { at.Loaded? || at.Locked? || at.Marked? || at.Leaving? || at.Answered? }
  predicate HasLock(at: At) { at.Locked? || at.Marked? || at.Leaving? || at.Answered? }

  /** A key maps to an entry made for it, and every live entry is the one its key maps to. */
  ghost predicate MapOk(s: State) {
    && (forall k :: k in s.m ==> s.m[k] < |s.cells| && s.cells[s.m[k]].key == k)
    && (forall c: nat :: c < |s.cells| && !s.cells[c].dead ==> s.cells[c].key in s.m && s.m[s.cells[c].key] == c)
  }

  /** Whoever is inside an entry holds its mutex, and nobody else does. */
  ghost predicate LocksOk(s: State) {
    && (forall t :: t in s.ops && HasLock(s.ops[t].at) ==> s.ops[t].at.c in s.locks && s.locks[s.ops[t].at.c] == t)
    && (forall c :: c in s.locks ==>
          s.locks[c] in s.ops && HasLock(s.ops[s.locks[c]].at) && s.ops[s.locks[c]].at.c == c)
  }

  /** An entry that is dead and not yet deleted is about to be, by the sweep that holds its mutex. */
  ghost predicate DyingOk(s: State) {
    forall k :: k in s.m && s.m[k] < |s.cells| && s.cells[s.m[k]].dead ==>
      s.m[k] in s.locks && s.locks[s.m[k]] in s.ops && s.ops[s.locks[s.m[k]]].at == Marked(s.m[k])
  }

  /** A recorded event was answered as the sequential store answers, and only idle keys are removed. */
  ghost predicate LinOk(x: Lin, log: seq<Lin>, n: nat)
    requires n <= |log|
  {
    match x
    case Recorded(_, k, ev, a) => a == AnswerAt(log, n, k, ev.time)
    case Removed(_, k, now) => k in StoreOf(log, n) && Idle(StoreOf(log, n)[k], now)
  }

  ghost predicate LogOk(log: seq<Lin>) { forall i :: 0 <= i < |log| ==> LinOk(log[i], log, i) }

  /** The answer is the sequential store's at some moment of the call. */
  ghost predicate AnsweredSince(log: seq<Lin>, since: nat, k: Key, now: int, a: Aggregates) {
    exists n :: since <= n <= |log| && a == AnswerAt(log, n, k, now)
  }

  ghost predicate RecordedSince(log: seq<Lin>, since: nat, t: nat, k: Key, ev: Event, a: Aggregates) {
    exists i :: since <= i < |log| && log[i] == Recorded(t, k, ev, a)
  }

  ghost predicate AbsentSince(log: seq<Lin>, since: nat, k: Key) {
    exists n :: since <= n <= |log| && k !in StoreOf(log, n)
  }

  ghost predicate OpOk(s: State, t: nat)
    requires t in s.ops
  {
    var op := s.ops[t];
    && op.since <= |s.log|
    && (HasCell(op.at) ==> op.at.c < |s.cells| && (!op.call.EvictIdle? ==> s.cells[op.at.c].key == op.call.k))
    && (op.call.EvictIdle? ==> !op.at.Missing? && !op.at.Answered? && !op.at.Done?)
    && (op.at.Marked? ==> op.call.EvictIdle? && s.cells[op.at.c].dead)
    && (op.call.Read? ==>
          && ((op.at.Loaded? || op.at.Locked?) && s.cells[op.at.c].dead ==> AbsentSince(s.log, op.since, op.call.k))
          && (op.at.Answered? || op.at.Done? ==> AnsweredSince(s.log, op.since, op.call.k, op.call.now, op.at.a)))
    && (op.call.ReadAdd? && (op.at.Answered? || op.at.Done?) ==>
          RecordedSince(s.log, op.since, t, op.call.k, op.call.ev, op.at.a))
  }

  /** A call has recorded its event once it has its answer, and never before or twice. */
  ghost predicate OnceOk(s: State) {
    && (forall i :: 0 <= i < |s.log| && s.log[i].Recorded? ==>
          s.log[i].op in s.ops && s.ops[s.log[i].op].call.ReadAdd?
            && (s.ops[s.log[i].op].at.Answered? || s.ops[s.log[i].op].at.Done?))
    && (forall i, j ::
          0 <= i < |s.log| && 0 <= j < |s.log| && s.log[i].Recorded? && s.log[j].Recorded?
          && s.log[i].op == s.log[j].op ==>
            i == j)
  }

  ghost predicate OpsOk(s: State) { forall t :: t in s.ops ==> OpOk(s, t) }

  ghost predicate Inv(s: State) {
    MapOk(s) && LocksOk(s) && DyingOk(s) && OpsOk(s) && OnceOk(s) && LogOk(s.log)
      && Serving(s) == StoreOf(s.log, |s.log|)
  }

  // ---- the log only grows ------------------------------------------------------------------

  lemma SinceGrows(log: seq<Lin>, x: Lin, since: nat, k: Key, now: int, a: Aggregates)
    ensures AnsweredSince(log, since, k, now, a) ==> AnsweredSince(log + [x], since, k, now, a)
    ensures AbsentSince(log, since, k) ==> AbsentSince(log + [x], since, k)
  {
    hide Answer;
    var more := log + [x];
    if AnsweredSince(log, since, k, now, a) {
      var n :| since <= n <= |log| && a == AnswerAt(log, n, k, now);
      StoreOfPrefix(log, more, n);
      assert a == AnswerAt(more, n, k, now);
    }
    if AbsentSince(log, since, k) {
      var n :| since <= n <= |log| && k !in StoreOf(log, n);
      StoreOfPrefix(log, more, n);
      assert k !in StoreOf(more, n);
    }
  }

  lemma RecordedGrows(log: seq<Lin>, x: Lin, since: nat, t: nat, k: Key, ev: Event, a: Aggregates)
    requires RecordedSince(log, since, t, k, ev, a)
    ensures RecordedSince(log + [x], since, t, k, ev, a)
  {
    var i :| since <= i < |log| && log[i] == Recorded(t, k, ev, a);
    assert (log + [x])[i] == log[i];
  }

  lemma LinStays(x: Lin, log: seq<Lin>, more: seq<Lin>, n: nat)
    requires log <= more && n <= |log| && LinOk(x, log, n)
    ensures LinOk(x, more, n)
  {
    StoreOfPrefix(log, more, n);
    hide StoreOf, Answer, Idle;
  }

  lemma LogGrows(log: seq<Lin>, x: Lin)
    requires LogOk(log)
    requires LinOk(x, log, |log|)
    ensures LogOk(log + [x])
  {
    var more := log + [x];
    hide LinOk;
    forall i | 0 <= i < |more| ensures LinOk(more[i], more, i) {
      if i < |log| { assert LinOk(log[i], log, i); }
      LinStays(if i < |log| then log[i] else x, log, more, i);
    }
  }

  // ---- one step ----------------------------------------------------------------------------

  /** Entries are only added and only die, and one that dies has its key gone from the store. */
  ghost predicate Grew(s: State, z: State) {
    && (z.log == s.log || exists x :: z.log == s.log + [x])
    && |s.cells| <= |z.cells|
    && forall c: nat :: c < |s.cells| ==>
         && z.cells[c].key == s.cells[c].key && (s.cells[c].dead ==> z.cells[c].dead)
         && (z.cells[c].dead ==> s.cells[c].dead || s.cells[c].key !in StoreOf(z.log, |z.log|))
  }

  /** A call that has not moved is still where it may be. */
  lemma OpStays(s: State, z: State, t: nat)
    requires Grew(s, z) && t in s.ops && t in z.ops && z.ops[t] == s.ops[t] && OpOk(s, t)
    ensures OpOk(z, t)
  {
    hide AnsweredSince, RecordedSince, Answer, StoreOf;
    var op := s.ops[t];
    if z.log != s.log {
      var x :| z.log == s.log + [x];
      if op.call.Read? && (op.at.Answered? || op.at.Done?) {
        SinceGrows(s.log, x, op.since, op.call.k, op.call.now, op.at.a);
      }
      if op.call.Read? { SinceGrows(s.log, x, op.since, op.call.k, 0, Unseen(op.call.k.entity)); }
      if op.call.ReadAdd? && (op.at.Answered? || op.at.Done?) {
        RecordedGrows(s.log, x, op.since, t, op.call.k, op.call.ev, op.at.a);
      }
    }
  }

  lemma ServingSame(s: State, z: State)
    requires s.m == z.m && s.cells == z.cells
    ensures Serving(s) == Serving(z)
  {}

  /** A step of one call that changes neither entries nor log. */
  lemma StepsAside(s: State, z: State, t: nat)
    requires Inv(s) && t in z.ops && z.cells == s.cells && z.m == s.m && z.log == s.log
    requires z.ops == s.ops[t := z.ops[t]]
    requires t in s.ops ==> z.ops[t].call == s.ops[t].call
    requires t in s.ops && (s.ops[t].at.Answered? || s.ops[t].at.Done?) ==> z.ops[t].at.Answered? || z.ops[t].at.Done?
    requires OpOk(z, t) && LocksOk(z) && DyingOk(z)
    ensures Inv(z)
  {
    hide OpOk, LogOk, LocksOk, StoreOf;
    ServingSame(s, z);
    forall u | u in z.ops ensures OpOk(z, u) {
      if u != t { OpStays(s, z, u); }
    }
  }

  /** A step of one call that neither takes nor leaves a mutex. */
  lemma LocksStay(s: State, z: State, t: nat)
    requires LocksOk(s) && DyingOk(s) && t in z.ops && z.locks == s.locks && z.ops == s.ops[t := z.ops[t]]
    requires if t in s.ops && HasLock(s.ops[t].at) then HasLock(z.ops[t].at)
              && z.ops[t].at.c == s.ops[t].at.c else !HasLock(z.ops[t].at)
    requires t in s.ops ==> !s.ops[t].at.Marked?
    requires z.m.Keys >= s.m.Keys && |z.cells| >= |s.cells|
    requires forall k :: k in z.m ==>
              if k in s.m then z.m[k] == s.m[k] else z.m[k] == |s.cells| < |z.cells| && !z.cells[|s.cells|].dead
    requires forall c: nat :: c < |s.cells| && z.cells[c].dead ==> s.cells[c].dead || z.ops[t].at == Marked(c)
    requires MapOk(s)
    ensures LocksOk(z) && DyingOk(z)
  {
    forall k | k in z.m && z.m[k] < |z.cells| && z.cells[z.m[k]].dead
      ensures z.m[k] in z.locks && z.locks[z.m[k]] in z.ops && z.ops[z.locks[z.m[k]]].at == Marked(z.m[k])
    {
      if k in s.m && !s.cells[s.m[k]].dead { assert z.ops[t].at == Marked(s.m[k]); }
    }
  }

  lemma LockTaken(s: State, z: State, t: nat, c: nat)
    requires LocksOk(s) && DyingOk(s) && t in s.ops && s.ops[t].at == Loaded(c) && c !in s.locks
    requires z == Moved(s.(locks := s.locks[c := t]), t, Locked(c))
    ensures LocksOk(z) && DyingOk(z)
  {}

  lemma LockLeft(s: State, z: State, t: nat)
    requires LocksOk(s) && DyingOk(s) && t in s.ops && (s.ops[t].at.Leaving? || s.ops[t].at.Answered?)
    requires z == Unlocking(s, t)
    ensures LocksOk(z) && DyingOk(z)
  {}

  lemma MapNames(s: State)
    requires MapOk(s)
    ensures forall k :: k in s.m ==> s.m[k] < |s.cells| && s.cells[s.m[k]].key == k
  {}

  lemma LooksUpInv(s: State, x: Step)
    requires Inv(s) && Enabled(s, x) && (x.Invoke? || x.Load? || x.Pick? || x.Finish? || x.Lock?)
    ensures Inv(Apply(s, x))
  {
    hide MapOk, Serving, LogOk, StoreOf, Answer, Unseen, OnceOk, LocksOk, DyingOk, AnsweredSince, AbsentSince;
    hide RecordedSince;
    var z := Apply(s, x);
    var t := x.t;
    MapNames(s);
    if x.Load? && s.ops[t].call.Read? {
      var op := s.ops[t];
      LookedUp(s, op.call.k, op.call.now, op.since);
      assert OpOk(s, t);
    }
    if !x.Invoke? { assert OpOk(s, t); }
    if x.Lock? { LockTaken(s, z, t, s.ops[t].at.c); } else { LocksStay(s, z, t); }
    StepsAside(s, z, t);
  }

  /** A key that is unmapped, or mapped to an entry already dead, is not in the store now. */
  lemma LookedUp(s: State, k: Key, now: int, since: nat)
    requires Inv(s) && since <= |s.log|
    ensures k !in s.m ==> AnsweredSince(s.log, since, k, now, Unseen(k.entity))
    ensures k in s.m && s.cells[s.m[k]].dead ==> AbsentSince(s.log, since, k)
  {
    hide LogOk, StoreOf, OpsOk, OnceOk, LocksOk;
    var n := |s.log|;
    if k !in Serving(s) { assert AnswerAt(s.log, n, k, now) == Unseen(k.entity) && k !in StoreOf(s.log, n); }
  }

  /** A key that was not mapped gets a fresh entry, which serves nothing yet. */
  lemma MapsNew(s: State, z: State, k: Key)
    requires MapOk(s) && k !in s.m && z.m == s.m[k := |s.cells|] && z.cells == s.cells + [Cell(k, None, false)]
    ensures MapOk(z) && Serving(z) == Serving(s)
  {}

  lemma StoresInv(s: State, t: nat)
    requires Inv(s) && Enabled(s, LoadOrStore(t))
    ensures Inv(Apply(s, LoadOrStore(t)))
  {
    hide LogOk, StoreOf, OnceOk, LocksOk, DyingOk, AnsweredSince, AbsentSince, RecordedSince;
    var z := Apply(s, LoadOrStore(t));
    var k := s.ops[t].call.k;
    assert OpOk(s, t);
    LocksStay(s, z, t);
    if k in s.m {
      if s.ops[t].call.Read? { LookedUp(s, k, s.ops[t].call.now, s.ops[t].since); }
      StepsAside(s, z, t);
    } else {
      StoresNewInv(s, t);
    }
  }

  lemma StoresNewInv(s: State, t: nat)
    requires Inv(s) && Enabled(s, LoadOrStore(t)) && s.ops[t].call.k !in s.m
    ensures Inv(Apply(s, LoadOrStore(t)))
  {
    hide LogOk, StoreOf, OnceOk, LocksOk, DyingOk, MapOk, Serving, AnsweredSince, AbsentSince, RecordedSince;
    var z := Apply(s, LoadOrStore(t));
    assert OpOk(s, t);
    LocksStay(s, z, t);
    MapsNew(s, z, s.ops[t].call.k);
    forall u | u in z.ops ensures OpOk(z, u) {
      if u != t { OpStays(s, z, u); }
    }
    OnceStays(s, z, t);
  }

  lemma OnceStays(s: State, z: State, t: nat)
    requires OnceOk(s) && t in s.ops && t in z.ops && z.log == s.log && z.ops == s.ops[t := z.ops[t]]
    requires z.ops[t].call == s.ops[t].call
    requires s.ops[t].at.Answered? || s.ops[t].at.Done? ==> z.ops[t].at.Answered? || z.ops[t].at.Done?
    ensures OnceOk(z)
  {}

  lemma ReadsInv(s: State, t: nat)
    requires Inv(s) && Enabled(s, Act(t)) && s.ops[t].call.Read?
    ensures Inv(Apply(s, Act(t)))
  {
    hide LogOk, StoreOf, OnceOk, LocksOk, DyingOk;
    var z := Apply(s, Act(t));
    var op := s.ops[t];
    var c, k, now := op.at.c, op.call.k, op.call.now;
    assert OpOk(s, t);
    LocksStay(s, z, t);
    var n := |s.log|;
    if s.cells[c].dead {
      n :| op.since <= n <= |s.log| && k !in StoreOf(s.log, n);
    }
    assert z.ops[t].at.a == AnswerAt(s.log, n, k, now);
    hide Answer, View, Unseen;
    StepsAside(s, z, t);
  }

  lemma UnlocksInv(s: State, t: nat)
    requires Inv(s) && Enabled(s, Unlock(t))
    ensures Inv(Apply(s, Unlock(t)))
  {
    hide LogOk, StoreOf, Answer, OnceOk, LocksOk, DyingOk;
    var z := Apply(s, Unlock(t));
    assert OpOk(s, t);
    LockLeft(s, z, t);
    StepsAside(s, z, t);
  }

  /** Deleting a dead entry's key takes nothing the map serves. */
  lemma MapsLess(s: State, z: State, c: nat)
    requires MapOk(s) && c < |s.cells| && s.cells[c].dead && z.cells == s.cells
    requires var k := s.cells[c].key; z.m == if k in s.m && s.m[k] == c then s.m - {k} else s.m
    ensures MapOk(z) && Serving(z) == Serving(s)
  {}

  lemma DeleteLocks(s: State, z: State, t: nat, c: nat)
    requires MapOk(s) && LocksOk(s) && DyingOk(s) && t in s.ops && s.ops[t].at == Marked(c) && c < |s.cells|
    requires z == Deleting(s, t)
    ensures LocksOk(z) && DyingOk(z)
  {}

  lemma DeletesInv(s: State, t: nat)
    requires Inv(s) && Enabled(s, Delete(t))
    ensures Inv(Apply(s, Delete(t)))
  {
    hide LogOk, StoreOf, OnceOk, LocksOk, DyingOk, MapOk, Serving, AnsweredSince, AbsentSince, RecordedSince;
    var z := Apply(s, Delete(t));
    assert OpOk(s, t);
    MapsLess(s, z, s.ops[t].at.c);
    DeleteLocks(s, z, t, s.ops[t].at.c);
    forall u | u in z.ops ensures OpOk(z, u) {
      if u != t { OpStays(s, z, u); }
    }
    OnceStays(s, z, t);
  }

  /** Adding to a live entry records the event in the store, and the answer is the store's. */
  lemma AddMeans(s: State, c: nat, k: Key, ev: Event)
    requires Inv(s) && c < |s.cells| && !s.cells[c].dead && s.cells[c].key == k
    ensures k in s.m && s.m[k] == c
    ensures var st := StoreOf(s.log, |s.log|);
            var h := s.cells[c].h;
            && Get(st, k) == h
            && Velocity.Recorded(h, ev) ==
              (if h.None? || Idle(h.value, ev.time) then Start(ev) else Record(h.value, ev))
           
                 && Answer(h, k.entity, ev.time) == (if h.None? || Idle(h.value, ev.time) then Unseen(k.entity)
                   else View(h.value, TracksDistinct(k.entity), ev.time))
  {
    hide LogOk, OpsOk, OnceOk, LocksOk, StoreOf, Record, Start, View, Unseen;
    assert s.cells[c].key in s.m && s.m[s.cells[c].key] == c;
    assert Get(Serving(s), k) == s.cells[c].h;
  }

  lemma ServingAdded(s: State, z: State, c: nat, h: History)
    requires MapOk(s) && c < |s.cells| && !s.cells[c].dead && z.m == s.m
    requires z.cells == s.cells[c := s.cells[c].(h := Some(h))]
    ensures Serving(z) == Serving(s)[s.cells[c].key := h]
  {
    assert s.cells[c].key in s.m && s.m[s.cells[c].key] == c;
  }

  lemma AddsInv(s: State, t: nat)
    requires Inv(s) && Enabled(s, Act(t)) && s.ops[t].call.ReadAdd?
    ensures Inv(Apply(s, Act(t)))
  {
    hide LogOk, StoreOf, Answer, OnceOk, Serving, View, Unseen, Start, Record, Idle, AnsweredSince, AbsentSince;
    hide LocksOk, DyingOk;
    var z := Apply(s, Act(t));
    var op := s.ops[t];
    var c := op.at.c;
    assert OpOk(s, t);
    LocksStay(s, z, t);
    if s.cells[c].dead {
      StepsAside(s, z, t);
    } else {
      var k, ev := op.call.k, op.call.ev;
      AddMeans(s, c, k, ev);
      var x := Recorded(t, k, ev, z.ops[t].at.a);
      var h := z.cells[c].h.value;
      assert z.log == s.log + [x] && z.cells == s.cells[c := s.cells[c].(h := Some(h))];
      ServingAdded(s, z, c, h);
      StoreNext(s.log, x);
      LogGrows(s.log, x);
      forall u | u in z.ops ensures OpOk(z, u) {
        if u != t { OpStays(s, z, u); } else { assert z.log[|s.log|] == x; }
      }
      OnceMore(s, z, t, x);
    }
  }

  lemma StoreNext(log: seq<Lin>, x: Lin)
    ensures StoreOf(log + [x], |log| + 1) ==
              match x { case Recorded(_, k, ev, _) => StoreOf(log,
                |log|)[k := Velocity.Recorded(Get(StoreOf(log, |log|), k), ev)]
                        case Removed(_, k, _) => StoreOf(log, |log|) - {k} }
  {
    hide Velocity.Recorded;
    StoreOfPrefix(log, log + [x], |log|);
  }

  /** The event of a call that had no answer yet has not been recorded before. */
  lemma OnceMore(s: State, z: State, t: nat, x: Lin)
    requires OnceOk(s) && t in s.ops && t in z.ops && z.log == s.log + [x] && z.ops == s.ops[t := z.ops[t]]
    requires x.op == t && z.ops[t].call == s.ops[t].call && !s.ops[t].at.Answered? && !s.ops[t].at.Done?
    requires x.Recorded? ==> s.ops[t].call.ReadAdd? && z.ops[t].at.Answered?
    ensures OnceOk(z)
  {
    forall i | 0 <= i < |z.log| && z.log[i].Recorded?
      ensures z.log[i].op in z.ops && z.ops[z.log[i].op].call.ReadAdd?
      ensures (z.ops[z.log[i].op].at.Answered? || z.ops[z.log[i].op].at.Done?)
    {
      if i < |s.log| { assert z.log[i] == s.log[i]; }
    }
    forall i, j | 0 <= i < |z.log| && 0 <= j < |z.log| && z.log[i].Recorded? && z.log[j].Recorded?
      && z.log[i].op == z.log[j].op
      ensures i == j
    {
      if i < |s.log| { assert z.log[i] == s.log[i]; }
      if j < |s.log| { assert z.log[j] == s.log[j]; }
    }
  }

  /** An entry that dies takes its key out of what the map serves. */
  lemma ServingEvicted(s: State, z: State, c: nat)
    requires MapOk(s) && c < |s.cells| && !s.cells[c].dead && z.m == s.m
    requires z.cells == s.cells[c := s.cells[c].(dead := true)]
    ensures MapOk(z) && Serving(z) == Serving(s) - {s.cells[c].key}
  {
    assert s.cells[c].key in s.m && s.m[s.cells[c].key] == c;
  }

  lemma EvictsInv(s: State, t: nat)
    requires Inv(s) && Enabled(s, Act(t)) && s.ops[t].call.EvictIdle?
    ensures Inv(Apply(s, Act(t)))
  {
    hide MapOk, LogOk, StoreOf, OnceOk, Serving, AnsweredSince, RecordedSince, AbsentSince, Idle, LocksOk, DyingOk;
    var z := Apply(s, Act(t));
    var c := s.ops[t].at.c;
    var cell := s.cells[c];
    assert OpOk(s, t);
    LocksStay(s, z, t);
    if cell.h.None? || !Idle(cell.h.value, s.ops[t].call.now) || cell.dead {
      assert z.cells == s.cells;
      StepsAside(s, z, t);
    } else {
      EvictsLiveInv(s, t);
    }
  }

  lemma EvictsLiveInv(s: State, t: nat)
    requires Inv(s) && Enabled(s, Act(t)) && s.ops[t].call.EvictIdle?
    requires var cell := s.cells[s.ops[t].at.c]; !cell.dead && cell.h.Some? && Idle(cell.h.value, s.ops[t].call.now)
    ensures Inv(Apply(s, Act(t)))
  {
    hide MapOk, LogOk, StoreOf, OnceOk, Serving, AnsweredSince, RecordedSince, AbsentSince, Idle, LocksOk, DyingOk;
    hide Answer, Velocity.Recorded;
    var z := Apply(s, Act(t));
    var op := s.ops[t];
    var c := op.at.c;
    var cell := s.cells[c];
    assert OpOk(s, t);
    LocksStay(s, z, t);
    var x := Removed(t, cell.key, op.call.now);
    assert z.log == s.log + [x] && z.cells == s.cells[c := cell.(dead := true)];
    AddMeans(s, c, cell.key, Event(op.call.now, 0, NaN));
    ServingEvicted(s, z, c);
    StoreNext(s.log, x);
    LogGrows(s.log, x);
    forall u | u in z.ops ensures OpOk(z, u) {
      if u != t { OpStays(s, z, u); }
    }
    OnceMore(s, z, t, x);
  }

  lemma StepInv(s: State, x: Step)
    requires Inv(s) && Enabled(s, x)
    ensures Inv(Apply(s, x))
  {
    hide Inv, Apply;
    match x
    case Invoke(_, _) | Load(_) | Pick(_, _) | Finish(_) | Lock(_) => LooksUpInv(s, x);
    case LoadOrStore(t) => StoresInv(s, t);
    case Act(t) => if s.ops[t].call.Read? { ReadsInv(s, t); } else if s.ops[t].call.ReadAdd? { AddsInv(s, t); } else {
      EvictsInv(s, t);
    }
    case Delete(t) => DeletesInv(s, t);
    case Unlock(t) => UnlocksInv(s, t);
  }

  // ---- runs --------------------------------------------------------------------------------

  ghost predicate Legal(steps: seq<Step>)
    decreases |steps|, 0
  {
    steps != [] ==>
      var front := steps[..|steps| - 1];
      Legal(front) && Enabled(End(front), steps[|steps| - 1])
  }

  ghost function End(steps: seq<Step>): State
    requires Legal(steps)
    decreases |steps|, 1
  {
    if steps == [] then EMPTY else Apply(End(steps[..|steps| - 1]), steps[|steps| - 1])
  }

  ghost predicate Reachable(s: State) { exists steps :: Legal(steps) && End(steps) == s }

  lemma NothingYet()
    ensures Inv(EMPTY)
  {}

  lemma {:induction false} RunInv(steps: seq<Step>)
    requires Legal(steps)
    ensures Inv(End(steps))
    decreases |steps|
  {
    hide Inv, Enabled, Apply;
    if steps == [] {
      NothingYet();
    } else {
      RunInv(steps[..|steps| - 1]);
      StepInv(End(steps[..|steps| - 1]), steps[|steps| - 1]);
    }
  }

  lemma ReachableInv(s: State)
    requires Reachable(s)
    ensures Inv(s)
  {
    hide Inv;
    var steps :| Legal(steps) && End(steps) == s;
    RunInv(steps);
  }

  /** Whatever the interleaving, the map serves what the sequential store holds after the log; the log
  answers each recorded event as that store does and removes only idle keys; a finished read got the
  store's answer at some moment of its call; and a finished update recorded its event exactly once, during
  its call, with the answer it returned. */
  lemma Linearises(s: State, t: nat)
    requires Reachable(s) && t in s.ops && s.ops[t].at.Done?
    ensures Serving(s) == StoreOf(s.log, |s.log|) && LogOk(s.log)
    ensures var op := s.ops[t];
            match op.call
            case Read(k, now) => AnsweredSince(s.log, op.since, k, now, op.at.a)
            case ReadAdd(k, ev) => exists i ::
              op.since <= i < |s.log| && OnlyAt(s.log, i, t, Recorded(t, k, ev, op.at.a))
            case EvictIdle(_) => false
  {
    ReachableInv(s);
    hide Reachable, LogOk, Serving, StoreOf, AnsweredSince;
    assert OpOk(s, t);
    var op := s.ops[t];
    if op.call.ReadAdd? {
      var i :| op.since <= i < |s.log| && s.log[i] == Recorded(t, op.call.k, op.call.ev, op.at.a);
      assert OnlyAt(s.log, i, t, s.log[i]);
    }
  }

  /** Entry i of the log is x, and the call recorded nothing else. */
  ghost predicate OnlyAt(log: seq<Lin>, i: nat, t: nat, x: Lin) {
    && i < |log| && log[i] == x
    && forall j :: 0 <= j < |log| && log[j].Recorded? && log[j].op == t ==> j == i
  }

  /** A key never has two live entries, and its live entry is the one the map gives. */
  lemma OneLiveEntry(s: State, b: nat, c: nat)
    requires Reachable(s) && b < |s.cells| && c < |s.cells| && !s.cells[b].dead && !s.cells[c].dead
    requires s.cells[b].key == s.cells[c].key
    ensures b == c && s.cells[c].key in s.m && s.m[s.cells[c].key] == c
  {
    ReachableInv(s);
    hide Reachable, LogOk, OpsOk, OnceOk, LocksOk, DyingOk, Serving, StoreOf;
  }

  predicate Finished(op: Op) { op.at.Done? || op.at.Swept? }

  /** The next step of a call that is not waiting for a mutex. */
  lemma CanStep(s: State, u: nat)
    requires u in s.ops && !Finished(s.ops[u]) && (s.ops[u].at.Loaded? ==> s.ops[u].at.c !in s.locks)
    requires HasCell(s.ops[u].at) ==> s.ops[u].at.c < |s.cells|
    requires s.ops[u].call.EvictIdle? ==> !s.ops[u].at.Missing?
    ensures exists x: Step :: !x.Invoke? && x.t == u && Enabled(s, x)
  {
    var at, call := s.ops[u].at, s.ops[u].call;
    var x :=
      if at.Begin? then if call.EvictIdle? then Finish(u) else Load(u)
      else if at.Missing? then LoadOrStore(u)
      else if at.Loaded? then Lock(u)
      else if at.Locked? then Act(u)
      else if at.Marked? then Delete(u) else Unlock(u);
    assert !x.Invoke? && x.t == u && Enabled(s, x);
  }

  lemma OpsStep(s: State, u: nat)
    requires OpsOk(s) && u in s.ops
    ensures HasCell(s.ops[u].at) ==> s.ops[u].at.c < |s.cells|
    ensures s.ops[u].call.EvictIdle? ==> !s.ops[u].at.Missing?
  {
    assert OpOk(s, u);
  }

  /** Whom a call waits for: the call that holds the mutex it wants, or nobody but itself. */
  function WaitsFor(s: State, t: nat): nat
    requires t in s.ops
  {
    if s.ops[t].at.Loaded? && s.ops[t].at.c in s.locks then s.locks[s.ops[t].at.c] else t
  }

  /** No call waits for ever on the others: the one an unfinished call waits for can take its next step. */
  lemma NeverStuck(s: State, t: nat)
    requires Reachable(s) && t in s.ops && !Finished(s.ops[t])
    ensures exists x: Step :: !x.Invoke? && x.t == WaitsFor(s, t) && Enabled(s, x)
  {
    ReachableInv(s);
    hide Reachable, LogOk, OnceOk, MapOk, DyingOk, Serving, StoreOf, OpsOk, Enabled;
    OpsStep(s, WaitsFor(s, t));
    CanStep(s, WaitsFor(s, t));
  }

  // ---- what a sweep counts -----------------------------------------------------------------

  /** How many keys a call has removed. */
  function Removals(log: seq<Lin>, t: nat, n: nat): nat
    requires n <= |log|
  {
    if n == 0 then 0 else Removals(log, t, n - 1) + if log[n - 1].Removed? && log[n - 1].op == t then 1 else 0
  }

  lemma {:induction false} RemovalsPrefix(log: seq<Lin>, more: seq<Lin>, t: nat, n: nat)
    requires log <= more && n <= |log|
    ensures Removals(log, t, n) == Removals(more, t, n)
    decreases n
  {
    if n > 0 { RemovalsPrefix(log, more, t, n - 1); }
  }

  predicate Sweeping(s: State, t: nat) { t in s.ops && s.ops[t].call.EvictIdle? && !Finished(s.ops[t]) }

  /** No two sweeps are under way together. */
  ghost predicate Apart(s: State) {
    forall t, u :: Sweeping(s, t) && Sweeping(s, u) ==> t == u
  }

  /** At every moment of the run. */
  ghost predicate AlwaysApart(steps: seq<Step>)
    requires Legal(steps)
    decreases |steps|
  {
    Apart(End(steps)) && (steps != [] ==> AlwaysApart(steps[..|steps| - 1]))
  }

  /** Every sweep's count is what it removed, and what it holds is alive until it marks it. */
  ghost predicate CountsOk(s: State) {
    forall t :: t in s.ops && s.ops[t].call.EvictIdle? ==> CountOk(s, t)
  }

  ghost predicate CountOk(s: State, t: nat)
    requires t in s.ops
  {
    var op := s.ops[t];
    && op.n == Removals(s.log, t, |s.log|)
    && ((op.at.Loaded? || op.at.Locked?) && op.at.c < |s.cells| ==> !s.cells[op.at.c].dead)
  }

  /** What a step adds to the removals of a call. */
  lemma RemovalsNext(s: State, x: Step, u: nat)
    requires Enabled(s, x)
    ensures s.log <= Apply(s, x).log && |Apply(s, x).log| <= |s.log| + 1
    ensures var log := Apply(s, x).log;
            |log| > |s.log| && log[|s.log|].Removed? ==> x.Act? && log[|s.log|].op == x.t && s.ops[x.t].call.EvictIdle?
    ensures var log := Apply(s, x).log;
            Removals(log, u, |log|)
            == Removals(s.log, u, |s.log|)
               + (if |log| > |s.log| && log[|s.log|].Removed? && log[|s.log|].op == u then 1 else 0)
  {
    hide View, Unseen, Record, Start, Idle;
    RemovalsPrefix(s.log, Apply(s, x).log, u, |s.log|);
  }

  /** Only a sweep kills an entry, the one it has locked. */
  lemma Kills(s: State, x: Step, c: nat)
    requires Enabled(s, x) && c < |s.cells|
    ensures var z := Apply(s, x); c < |z.cells| && (z.cells[c].dead ==>
              s.cells[c].dead || (x.Act? && s.ops[x.t].call.EvictIdle? && s.ops[x.t].at == Locked(c)))
  {
    hide View, Unseen, Record, Start, Idle;
  }

  lemma CountOther(s: State, x: Step, u: nat)
    requires Inv(s) && Enabled(s, x) && Apart(s) && u != x.t && u in s.ops && s.ops[u].call.EvictIdle? && CountOk(s, u)
    ensures u in Apply(s, x).ops && CountOk(Apply(s, x), u)
  {
    RemovalsNext(s, x, u);
    assert OpOk(s, u);
    var op := s.ops[u];
    OthersStay(s, x, u);
    if HasCell(op.at) { Kills(s, x, op.at.c); }
    hide Apply, Enabled, Removals, OpOk;
    if x.Act? && s.ops[x.t].call.EvictIdle? && s.ops[x.t].at.Locked? && !Finished(op) {
      assert Sweeping(s, x.t) && Sweeping(s, u);
    }
  }

  lemma OthersStay(s: State, x: Step, u: nat)
    requires Enabled(s, x) && u != x.t && u in s.ops
    ensures u in Apply(s, x).ops && Apply(s, x).ops[u] == s.ops[u]
  {}

  lemma DyingIsSwept(s: State, k: Key)
    requires Inv(s) && k in s.m && s.cells[s.m[k]].dead
    ensures exists u :: Sweeping(s, u) && s.ops[u].at.Marked?
  {
    hide LogOk, OnceOk, StoreOf, Serving;
    var u := s.locks[s.m[k]];
    assert OpOk(s, u);
    assert Sweeping(s, u) && s.ops[u].at.Marked?;
  }

  /** An entry a lone sweep finds is alive: a dead one would be held by another sweep. */
  lemma FoundAlive(s: State, t: nat, k: Key)
    requires Inv(s) && Apart(s) && Sweeping(s, t) && s.ops[t].at.Begin? && k in s.m
    ensures s.m[k] < |s.cells| && !s.cells[s.m[k]].dead
  {
    hide LogOk, OnceOk, StoreOf, Serving, OpOk, LocksOk, DyingOk;
    if s.cells[s.m[k]].dead {
      DyingIsSwept(s, k);
    }
  }

  /** A lone sweep counts the entry it marks, and removes its key. */
  lemma MarkCounts(s: State, t: nat)
    requires Enabled(s, Act(t)) && s.ops[t].call.EvictIdle? && CountOk(s, t) && s.ops[t].at.c < |s.cells|
    ensures CountOk(Apply(s, Act(t)), t)
  {
    RemovalsNext(s, Act(t), t);
    hide Removals, Idle;
  }

  lemma CountSelf(s: State, x: Step)
    requires Inv(s) && Enabled(s, x) && Apart(s) && x.t in Apply(s, x).ops && Apply(s, x).ops[x.t].call.EvictIdle?
    requires if x.t in s.ops then CountOk(s, x.t) else Removals(s.log, x.t, |s.log|) == 0
    ensures CountOk(Apply(s, x), x.t)
  {
    var t := x.t;
    if !x.Invoke? { assert OpOk(s, t); }
    if x.Act? {
      MarkCounts(s, t);
    } else {
      RemovalsNext(s, x, t);
      if x.Pick? { FoundAlive(s, t, x.k); }
    }
    hide Removals, Inv, OpOk, Apart, ReadLocked, AddLocked, EvictLocked;
  }

  lemma CountStep(s: State, x: Step)
    requires Inv(s) && Enabled(s, x) && CountsOk(s) && Apart(s)
    requires forall t :: t !in s.ops ==> Removals(s.log, t, |s.log|) == 0
    ensures CountsOk(Apply(s, x))
    ensures forall t :: t !in Apply(s, x).ops ==> Removals(Apply(s, x).log, t, |Apply(s, x).log|) == 0
  {
    var z := Apply(s, x);
    CallsStay(s, x);
    hide Inv, Apart, CountOk, Apply, Enabled, Removals;
    forall t | t in z.ops && z.ops[t].call.EvictIdle? ensures CountOk(z, t) {
      if t == x.t { CountSelf(s, x); } else { CountOther(s, x, t); }
    }
    forall t | t !in z.ops ensures Removals(z.log, t, |z.log|) == 0 { RemovalsNext(s, x, t); }
  }

  lemma CallsStay(s: State, x: Step)
    requires Enabled(s, x)
    ensures x.t in Apply(s, x).ops
    ensures forall t :: t in s.ops ==> t in Apply(s, x).ops && Apply(s, x).ops[t].call == s.ops[t].call
    ensures forall t :: t in Apply(s, x).ops ==> t in s.ops || t == x.t
  {
    if x.Act? { ActStays(s, x.t); }
    hide ReadLocked, AddLocked, EvictLocked;
  }

  lemma ActStays(s: State, t: nat)
    requires Enabled(s, Act(t))
    ensures var z := Apply(s, Act(t)); z.ops == s.ops[t := z.ops[t]] && z.ops[t].call == s.ops[t].call
  {
    hide View, Unseen, Record, Start, Idle;
  }

  lemma {:induction false} CountsAreRemovals(steps: seq<Step>)
    requires Legal(steps) && AlwaysApart(steps)
    ensures var s := End(steps);
            CountsOk(s) && forall t :: t !in s.ops ==> Removals(s.log, t, |s.log|) == 0
    decreases |steps|
  {
    hide Inv, Apart, CountOk, Apply, Enabled, Removals;
    if steps == [] {
      NoRemovals();
    } else {
      var front := steps[..|steps| - 1];
      CountsAreRemovals(front);
      RunInv(front);
      CountStep(End(front), steps[|steps| - 1]);
    }
  }

  lemma NoRemovals()
    ensures forall t :: Removals([], t, 0) == 0
  {}

  /** While sweeps do not overlap, the number a sweep returns is the number of keys it removed. */
  lemma SweepCountsItsKeys(steps: seq<Step>, t: nat)
    requires Legal(steps) && AlwaysApart(steps) && t in End(steps).ops && End(steps).ops[t].call.EvictIdle?
    ensures End(steps).ops[t].n == Removals(End(steps).log, t, |End(steps).log|)
  {
    CountsAreRemovals(steps);
    hide Legal, End, AlwaysApart, Removals;
    assert CountOk(End(steps), t);
  }

  // ---- what a sweep counts too often -----------------------------------------------------------

  /** The sweep t acts on an entry that some sweep has marked already: dead, and still holding an idle history. */
  predicate Recounting(s: State, x: Step, t: nat) {
    && x == Act(t) && Enabled(s, x) && s.ops[t].call.EvictIdle?
    && var cell := s.cells[s.ops[t].at.c];
       cell.dead && cell.h.Some? && Idle(cell.h.value, s.ops[t].call.now)
  }

  /** How often that happens to t in a run. */
  ghost function Recounts(steps: seq<Step>, t: nat): nat
    requires Legal(steps)
    decreases |steps|
  {
    if steps == [] then 0
    else
      var front := steps[..|steps| - 1];
      Recounts(front, t) + if Recounting(End(front), steps[|steps| - 1], t) then 1 else 0
  }

  /** How many entries a call has counted: none before it is made. */
  function CountOf(s: State, t: nat): nat { if t in s.ops then s.ops[t].n else 0 }

  /** A step adds to a count what it removes and what it recounts. */
  lemma CountNext(s: State, x: Step, t: nat)
    requires Enabled(s, x)
    ensures var z := Apply(s, x);
            CountOf(z, t) + Removals(s.log, t, |s.log|)
            == CountOf(s, t) + Removals(z.log, t, |z.log|) + if Recounting(s, x, t) then 1 else 0
  {
    RemovalsNext(s, x, t);
    if t != x.t { if t in s.ops { OthersStay(s, x, t); } else { CallsStay(s, x); } }
    hide Removals, View, Unseen, Record, Start, Idle;
  }

  /** The number a sweep has counted exceeds what it removed by what it recounted. */
  lemma {:induction false} CountIsRemovalsAndRecounts(steps: seq<Step>, t: nat)
    requires Legal(steps)
    ensures var s := End(steps); CountOf(s, t) == Removals(s.log, t, |s.log|) + Recounts(steps, t)
    decreases |steps|
  {
    hide Removals, Recounting, Apply, Enabled;
    if steps == [] {
      NoRemovals();
    } else {
      var front := steps[..|steps| - 1];
      CountIsRemovalsAndRecounts(front, t);
      CountNext(End(front), steps[|steps| - 1], t);
    }
  }

  /** The number a sweep returns is the number of keys it removed if and only if it never acted on an entry that was
  already dead and idle, whatever ran beside it. */
  lemma SweepCountsExactly(steps: seq<Step>, t: nat)
    requires Legal(steps) && t in End(steps).ops && End(steps).ops[t].call.EvictIdle?
    ensures var s := End(steps); s.ops[t].n == Removals(s.log, t, |s.log|) <==> Recounts(steps, t) == 0
  {
    CountIsRemovalsAndRecounts(steps, t);
    hide Removals, Recounts, Legal, End;
  }

  /** Sweeps that do not overlap never recount. */
  lemma LoneSweepsNeverRecount(steps: seq<Step>, t: nat)
    requires Legal(steps) && AlwaysApart(steps) && t in End(steps).ops && End(steps).ops[t].call.EvictIdle?
    ensures Recounts(steps, t) == 0
  {
    SweepCountsItsKeys(steps, t);
    SweepCountsExactly(steps, t);
  }

  // ---- two sweeps at once --------------------------------------------------------------------

  lemma Goes(s: State, x: Step) returns (z: State)
    requires Reachable(s) && Enabled(s, x)
    ensures Reachable(z) && z == Apply(s, x)
  {
    var steps :| Legal(steps) && End(steps) == s;
    var more := steps + [x];
    assert more[..|more| - 1] == steps && more[|more| - 1] == x;
    z := Apply(s, x);
    assert Legal(more) && End(more) == z;
  }

  /** With one key recorded, two sweeps may both find it before either locks it; then both count it. */
  lemma OverlappingSweepsCountTwice(k: Key, ev: Event) returns (s: State)
    ensures Reachable(s) && 1 in s.ops && 2 in s.ops && s.ops[1].at.Swept? && s.ops[2].at.Swept?
    ensures s.ops[1].n + s.ops[2].n == 2
    ensures Removals(s.log, 1, |s.log|) + Removals(s.log, 2, |s.log|) == 1
  {
    hide Reachable, Answer, Removals;
    var now := ev.time + IDLE_TTL;
    s := FirstSweeps(k, ev, now);
    OneRemoval(s.log, k, now);
    s := Goes(s, Lock(2));
    s := Goes(s, Act(2));
    s := Goes(s, Delete(2));
    s := Goes(s, Unlock(2));
    s := Goes(s, Finish(1));
    s := Goes(s, Finish(2));
  }

  /** The first sweep has removed the key; the second still holds its entry's pointer. */
  lemma FirstSweeps(k: Key, ev: Event, now: int) returns (s: State)
    requires now == ev.time + IDLE_TTL
    ensures Reachable(s) && s.cells == [Cell(k, Some(Start(ev)), true)] && s.m == map[] && s.locks == map[]
    ensures 1 in s.ops && s.ops[1] == Op(EvictIdle(now), Begin, 1, {k}, 1)
    ensures 2 in s.ops && s.ops[2] == Op(EvictIdle(now), Loaded(0), 1, {k}, 0)
    ensures |s.log| == 2 && s.log[0].Recorded? && s.log[1] == Removed(1, k, now)
  {
    hide Reachable, Answer;
    s := OneKey(k, ev);
    s := Goes(s, Invoke(1, EvictIdle(now)));
    s := Goes(s, Invoke(2, EvictIdle(now)));
    s := Goes(s, Pick(1, k));
    s := Goes(s, Pick(2, k));
    s := Goes(s, Lock(1));
    s := Goes(s, Act(1));
    s := Goes(s, Delete(1));
    s := Goes(s, Unlock(1));
  }

  lemma OneRemoval(log: seq<Lin>, k: Key, now: int)
    requires |log| == 2 && log[0].Recorded? && log[1] == Removed(1, k, now)
    ensures Removals(log, 1, 2) == 1 && Removals(log, 2, 2) == 0
  {
    assert Removals(log, 1, 1) == 0 && Removals(log, 2, 1) == 0;
  }

  lemma OneKey(k: Key, ev: Event) returns (s: State)
    ensures Reachable(s) && s.m == map[k := 0] && s.cells == [Cell(k, Some(Start(ev)), false)] && s.locks == map[]
    ensures s.ops.Keys == {0} && |s.log| == 1 && s.log[0].Recorded?
  {
    assert Legal([]) && End([]) == EMPTY;
    hide Reachable;
    s := Goes(EMPTY, Invoke(0, ReadAdd(k, ev)));
    s := Goes(s, Load(0));
    s := Goes(s, LoadOrStore(0));
    s := Goes(s, Lock(0));
    s := Goes(s, Act(0));
    s := Goes(s, Unlock(0));
  }
}
