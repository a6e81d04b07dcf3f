/** What a request with an idempotency key is answered in any run, restarts included, and why a claim never blocks its
key for good (internal/service/idempotency.go, internal/service/assess.go). */
module Replies {
  import opened Domain
  import opened Idempotency

  /** This finished entry of key k is request t's: its key, its hash, its answer. */
  predicate IsOf(s: State, k: string, e: Entry, t: nat) {
    && t in s.requests && s.requests[t].key == k && s.requests[t].valid
    && e == Ready(s.requests[t].hash, s.requests[t].answer)
  }

  ghost predicate Owed(s: State, k: string, e: Entry) { exists t :: IsOf(s, k, e, t) }

  /** Every finished entry is some request's. */
  ghost predicate AllOwed(s: State, entries: map<string, Entry>) {
    forall k :: k in entries && entries[k].Ready? ==> Owed(s, k, entries[k])
  }

  /** A claim in the store is that of a request under way. */
  predicate Held(s: State, k: string, o: nat) {
    o in s.at && o in s.requests && (s.at[o].Claimed? || s.at[o].Running?) && s.requests[o].key == k
  }

  ghost predicate AllHeld(s: State) {
    forall k :: k in s.entries && s.entries[k].InFlight? ==> Held(s, k, s.entries[k].owner)
  }

  /** Another request had u's key and, by its hash, another body. */
  predicate Conflicts(s: State, u: nat, t: nat)
    requires u in s.requests
  {
    t in s.requests && s.requests[t].key == s.requests[u].key && s.requests[t].hash != s.requests[u].hash
  }

  /** The reply request u may get: the answer to a request with its key and its hash, a refusal because there was one
  with its key and another hash, its own answer if it is valid, or the rejection if it is not. */
  ghost predicate Deserves(s: State, u: nat, r: Reply)
    requires u in s.requests
  {
    match r
    case Stored(a) => Owed(s, s.requests[u].key, Ready(s.requests[u].hash, a))
    case KeyReused => exists t :: Conflicts(s, u, t)
    case Assessed(a) => s.requests[u].valid && a == s.requests[u].answer
    case Rejected => !s.requests[u].valid
  }

  /** A request is where it can be. */
  ghost predicate PlaceOk(s: State, u: nat)
    requires u in s.at
  {
    && u in s.requests
    && match s.at[u]
       case Arrived | Claimed => true
       case Running(done) =>
         InShards(s, s.requests[u]) && done <= |s.requests[u].shards| && (!s.requests[u].valid ==> done == 0)
       case Settled(r) => Deserves(s, u, r)
       case Answered(r) => Deserves(s, u, r)
  }

  ghost predicate PlacesOk(s: State) { forall u :: u in s.at ==> PlaceOk(s, u) }

  ghost predicate RequestsFit(s: State) {
    && (forall u :: u in s.requests ==> InShards(s, s.requests[u]))
    && (s.file.Some? ==> |s.file.value.velocity| == |s.velocity|)
    && (s.saving.Shards? ==> |s.saving.saved| <= |s.velocity|)
    && (s.saving.Locked? || s.saving.Copied? ==> |s.saving.saved| == |s.velocity|)
  }

  ghost predicate CopiesOwed(s: State) {
    && (s.saving.Copied? ==> AllOwed(s, s.saving.entries) && ReadyOnly(s.saving.entries) == s.saving.entries)
    && (s.file.Some? ==> AllOwed(s, s.file.value.entries) && ReadyOnly(s.file.value.entries) == s.file.value.entries)
  }

  ghost predicate Inv(s: State) {
    AllOwed(s, s.entries) && AllHeld(s) && CopiesOwed(s) && PlacesOk(s) && RequestsFit(s)
  }

  // ---- more requests take nothing away ----------------------------------------------------------------

  ghost predicate Grows(s: State, z: State) {
    |s.velocity| == |z.velocity| && forall t :: t in s.requests ==> t in z.requests && z.requests[t] == s.requests[t]
  }

  lemma OwedStays(s: State, z: State, k: string, e: Entry)
    requires Grows(s, z) && Owed(s, k, e)
    ensures Owed(z, k, e)
  {
    var t :| IsOf(s, k, e, t);
    assert IsOf(z, k, e, t);
  }

  lemma AllOwedStays(s: State, z: State, entries: map<string, Entry>)
    requires Grows(s, z) && AllOwed(s, entries)
    ensures AllOwed(z, entries)
  {
    hide Owed, Grows;
    forall k | k in entries && entries[k].Ready? ensures Owed(z, k, entries[k]) { OwedStays(s, z, k, entries[k]); }
  }

  lemma DeservesStays(s: State, z: State, u: nat, r: Reply)
    requires Grows(s, z) && u in s.requests && Deserves(s, u, r)
    ensures Deserves(z, u, r)
  {
    match r
    case Stored(a) => OwedStays(s, z, s.requests[u].key, Ready(s.requests[u].hash, a));
    case KeyReused =>
      var t :| Conflicts(s, u, t);
      assert Conflicts(z, u, t);
    case _ =>
  }

  lemma PlaceStays(s: State, z: State, u: nat)
    requires Grows(s, z) && u in s.at && PlaceOk(s, u) && u in z.at && z.at[u] == s.at[u]
    ensures PlaceOk(z, u)
  {
    hide Deserves;
    match s.at[u]
    case Settled(r) => DeservesStays(s, z, u, r);
    case Answered(r) => DeservesStays(s, z, u, r);
    case _ =>
  }

  /** A step that touches one request's place leaves the others where they were. */
  lemma PlacesStay(s: State, z: State, u: nat)
    requires Grows(s, z) && PlacesOk(s)
    requires forall t :: t in z.at && t != u ==> t in s.at && z.at[t] == s.at[t]
    requires u in z.at ==> PlaceOk(z, u)
    ensures PlacesOk(z)
  {
    forall t | t in z.at ensures PlaceOk(z, t) { if t != u { PlaceStays(s, z, t); } }
  }

  lemma CopiesStay(s: State, z: State)
    requires Grows(s, z) && CopiesOwed(s) && z.saving == s.saving && z.file == s.file
    ensures CopiesOwed(z)
  {
    hide AllOwed, Grows, ReadyOnly;
    if s.saving.Copied? { AllOwedStays(s, z, s.saving.entries); }
    if s.file.Some? { AllOwedStays(s, z, s.file.value.entries); }
  }

  // ---- steps ---------------------------------------------------------------------------------------------

  /** A claim answers the stored body exactly when a finished entry of its key has its hash, refuses exactly when one
  has another hash, and owns the key exactly when the key has no entry. */
  lemma ClaimGets(s: State, t: nat, a: string)
    requires Enabled(s, Idempotency.Claim(t))
    ensures var r, z := s.requests[t], Apply(s, Idempotency.Claim(t));
            && (z.at[t] == Answered(Stored(a)) <==> r.key in s.entries && s.entries[r.key] == Ready(r.hash, a))
            && (z.at[t] == Answered(KeyReused) <==>
                  r.key in s.entries && s.entries[r.key].Ready? && s.entries[r.key].hash != r.hash)
            && (z.at[t] == Claimed <==> r.key !in s.entries)
  {}

  lemma ClaimDeserves(s: State, t: nat)
    requires Inv(s) && Enabled(s, Idempotency.Claim(t))
    ensures Inv(Apply(s, Idempotency.Claim(t)))
  {
    var r, z := s.requests[t], Apply(s, Idempotency.Claim(t));
    CopiesStay(s, z);
    AllOwedStays(s, z, s.entries);
    if r.key in s.entries {
      var e := s.entries[r.key];
      StillHeld(s, z);
      hide AllHeld, CopiesOwed;
      OwedStays(s, z, r.key, e);
      if e.hash != r.hash {
        var u :| IsOf(s, r.key, e, u);
        assert Conflicts(z, t, u);
      }
    }
    PlacesStay(s, z, t);
    hide Owed, CopiesOwed, PlacesOk, ReadyOnly;
  }

  lemma SettleDeserves(s: State, t: nat)
    requires Inv(s) && Enabled(s, Idempotency.Settle(t)) && ClaimsOk(s)
    ensures Inv(Apply(s, Idempotency.Settle(t)))
  {
    var r, z := s.requests[t], Apply(s, Idempotency.Settle(t));
    CopiesStay(s, z);
    AllOwedStays(s, z, s.entries);
    assert IsOf(z, r.key, Ready(r.hash, r.answer), t);
    PlacesStay(s, z, t);
    hide CopiesOwed, PlacesOk, ReadyOnly;
  }

  /** A step that leaves the entries keeps their claims if no owner loses its place. */
  lemma StillHeld(s: State, z: State)
    requires AllHeld(s) && z.entries == s.entries
    requires forall o :: o in s.at && o in s.requests && (s.at[o].Claimed? || s.at[o].Running?) ==>
               && o in z.at && (z.at[o].Claimed? || z.at[o].Running?)
               && o in z.requests && z.requests[o] == s.requests[o]
    ensures AllHeld(z)
  {}

  lemma ArriveDeserves(s: State, x: Step)
    requires Inv(s) && Enabled(s, x) && x.Arrive?
    ensures Inv(Apply(s, x))
  {
    var z := Apply(s, x);
    CopiesStay(s, z);
    AllOwedStays(s, z, s.entries);
    StillHeld(s, z);
    PlacesStay(s, z, x.t);
    hide AllOwed, AllHeld, CopiesOwed, PlacesOk, Deserves;
  }

  lemma MoveDeserves(s: State, x: Step)
    requires Inv(s) && Enabled(s, x) && (x.TakeCut? || x.Update? || x.ReleaseCut?)
    ensures Inv(Apply(s, x))
  {
    var z := Apply(s, x);
    CopiesStay(s, z);
    AllOwedStays(s, z, s.entries);
    StillHeld(s, z);
    assert PlaceOk(s, x.t);
    hide AllOwed, AllHeld, CopiesOwed, PlacesOk;
    if x.ReleaseCut? { DeservesStays(s, z, x.t, s.at[x.t].reply); }
    hide Deserves;
    PlacesStay(s, z, x.t);
  }

  lemma RejectDeserves(s: State, t: nat)
    requires Inv(s) && Enabled(s, Reject(t)) && ClaimsOk(s)
    ensures Inv(Apply(s, Reject(t)))
  {
    var z := Apply(s, Reject(t));
    CopiesStay(s, z);
    AllOwedStays(s, z, s.entries);
    PlacesStay(s, z, t);
    hide Owed, CopiesOwed, PlacesOk, ReadyOnly;
  }

  lemma SaveDeserves(s: State, x: Step)
    requires Inv(s) && Enabled(s, x)
    requires x.Begin? || x.SaveShard? || x.LockCut? || x.CopyEntries? || x.Write?
    ensures Inv(Apply(s, x))
  {
    var z := Apply(s, x);
    AllOwedStays(s, z, s.entries);
    if s.file.Some? { AllOwedStays(s, z, s.file.value.entries); }
    if s.saving.Copied? { AllOwedStays(s, z, s.saving.entries); }
    StillHeld(s, z);
    hide AllHeld, Owed;
    forall u | u in z.at ensures PlaceOk(z, u) { PlaceStays(s, z, u); }
    hide PlaceOk;
  }

  lemma RestartDeserves(s: State)
    requires Inv(s)
    ensures Inv(Apply(s, Restart))
  {
    var z := Apply(s, Restart);
    if s.file.Some? { AllOwedStays(s, z, s.file.value.entries); }
    hide Owed;
  }

  lemma StepDeserves(s: State, x: Step)
    requires Inv(s) && ClaimsOk(s) && Enabled(s, x)
    ensures Inv(Apply(s, x))
  {
    hide Inv, Apply, Enabled, ClaimsOk;
    match x
    case Claim(t) => ClaimDeserves(s, t);
    case Settle(t) => SettleDeserves(s, t);
    case Restart => RestartDeserves(s);
    case Begin | SaveShard | LockCut | CopyEntries | Write => SaveDeserves(s, x);
    case Reject(t) => RejectDeserves(s, t);
    case Arrive(_, _) => ArriveDeserves(s, x);
    case _ => MoveDeserves(s, x);
  }

  // ---- runs ------------------------------------------------------------------------------------------------

  lemma {:induction false} RunDeserves(n: nat, steps: seq<Step>)
    requires Legal(n, steps)
    ensures Inv(End(n, steps))
    decreases |steps|
  {
    hide Inv, Apply, Enabled, Start, ClaimsOk;
    if steps == [] {
      NothingYet(n);
    } else {
      var front := steps[..|steps| - 1];
      RunDeserves(n, front);
      RunInv(n, front);
      RunsClaims(End(n, front));
      StepDeserves(End(n, front), steps[|steps| - 1]);
    }
  }

  lemma RunsClaims(s: State)
    requires Idempotency.Inv(s)
    ensures ClaimsOk(s)
  {}

  lemma NothingYet(n: nat)
    ensures Inv(Start(n))
  {}

  /** Whatever a request is told in any run: a stored answer is that of a valid request with its key and its hash, a
  refusal means there was one with its key and another hash, an assessment is its own. */
  lemma RepliesAreTrue(n: nat, steps: seq<Step>, u: nat, r: Reply)
    requires Legal(n, steps)
    requires var s := End(n, steps); u in s.at && (s.at[u] == Answered(r) || s.at[u] == Settled(r))
    ensures var s := End(n, steps);
            && u in s.requests
            && (forall a :: r == Stored(a) ==>
                  exists t :: && t in s.requests && s.requests[t].key == s.requests[u].key
                              && s.requests[t].hash == s.requests[u].hash && s.requests[t].answer == a)
            && (r == KeyReused ==>
                  exists t :: && t in s.requests && s.requests[t].key == s.requests[u].key
                              && s.requests[t].hash != s.requests[u].hash)
            && (forall a :: r == Assessed(a) ==> s.requests[u].valid && s.requests[u].answer == a)
            && (r == Rejected ==> !s.requests[u].valid)
  {
    RunDeserves(n, steps);
    hide Legal, End;
    var s := End(n, steps);
    assert PlaceOk(s, u);
    match r
    case Stored(a) =>
      var t :| IsOf(s, s.requests[u].key, Ready(s.requests[u].hash, a), t);
      assert t in s.requests;
    case KeyReused =>
      var t :| Conflicts(s, u, t);
      assert t in s.requests;
    case _ =>
  }

  /** A request that has to wait waits for one that can go on: its next step is enabled, or will be once the snapshot
  holding the cut has made its copy, which it can. */
  lemma WaitsForSomeone(n: nat, steps: seq<Step>, u: nat)
    requires Legal(n, steps)
    requires var s := End(n, steps); u in s.at && s.at[u].Arrived? && !Enabled(s, Idempotency.Claim(u))
    ensures var s := End(n, steps);
            && u in s.requests && s.requests[u].key in s.entries && s.entries[s.requests[u].key].InFlight?
            && var o := s.entries[s.requests[u].key].owner;
               || Enabled(s, TakeCut(o)) || Enabled(s, Reject(o)) || Enabled(s, Update(o))
               || Enabled(s, Idempotency.Settle(o)) || Enabled(s, CopyEntries)
  {
    RunDeserves(n, steps);
    hide Legal, End;
    var s := End(n, steps);
    assert PlaceOk(s, u);
    var o := s.entries[s.requests[u].key].owner;
    assert Held(s, s.requests[u].key, o) && PlaceOk(s, o);
  }
}
