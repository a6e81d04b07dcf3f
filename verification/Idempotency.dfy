/** Requests with idempotency keys beside a snapshot in progress: which of them count a payment, and which answers a
snapshot file holds (internal/service/idempotency.go, internal/service/assess.go, internal/service/snapshot.go). */
module Idempotency {
  import opened Domain

  /** A request body with its key and hash: which velocity shards its payment updates, in order, whether
  it is a request the service accepts, and the answer it would get. */
  datatype Request = Request(key: string, hash: nat, shards: seq<nat>, valid: bool, answer: string)

  datatype Reply = Stored(answer: string) | KeyReused | Assessed(answer: string) | Rejected

  /** Where a request is. Running holds the cut shared; done of its shards are updated. */
  datatype At = Arrived | Claimed | Running(done: nat) | Settled(reply: Reply) | Answered(reply: Reply)

  datatype Entry = InFlight(owner: nat) | Ready(hash: nat, answer: string)

  /** A snapshot under way: the shards serialised so far, then the copy of the answers. */
  datatype Saving = Idle | Shards(
    saved: seq<set<nat>>) | Locked(saved: seq<set<nat>>) | Copied(saved: seq<set<nat>>, entries: map<string, Entry>)

  /** What a snapshot file holds. */
  datatype File = File(velocity: seq<set<nat>>, entries: map<string, Entry>)

  /** velocity[i] is the requests whose payment shard i has counted. requests are never forgotten: those of
  earlier processes stay as history. */
  datatype State = State(
    requests: map<nat, Request>, at: map<nat, At>, velocity: seq<set<nat>>, entries: map<string, Entry>,
    saving: Saving, file: Option<File>)

  function NoShards(n: nat): seq<set<nat>> { seq(n, i => {}) }

  function Start(n: nat): State { State(map[], map[], NoShards(n), map[], Idle, None) }

  datatype Step =
    | Arrive(t: nat, r: Request) | Claim(t: nat) | TakeCut(t: nat) | Reject(t: nat) | Update(t: nat) | Settle(t: nat)
    | ReleaseCut(t: nat)
    | Begin | SaveShard | LockCut | CopyEntries | Write
    | Restart

  predicate HasCut(at: At) { at.Running? || at.Settled? }

  predicate InShards(s: State, r: Request) { forall i :: 0 <= i < |r.shards| ==> r.shards[i] < |s.velocity| }

  ghost predicate Enabled(s: State, x: Step) {
    match x
    case Arrive(t, r) => t !in s.requests && t !in s.at && InShards(s, r)
    case Claim(t) => t in s.at && t in s.requests && s.at[t].Arrived?
      && (s.requests[t].key in s.entries ==> s.entries[s.requests[t].key].Ready?)
    case TakeCut(t) => t in s.at && s.at[t].Claimed? && !s.saving.Locked?
    case Reject(t) => t in s.at && t in s.requests && s.at[t] == Running(0) && !s.requests[t].valid
    case Update(t) =>
      && t in s.at && t in s.requests && s.at[t].Running? && s.requests[t].valid
      && s.at[t].done < |s.requests[t].shards| && s.requests[t].shards[s.at[t].done] < |s.velocity|
    case Settle(t) =>
      t in s.at && t in s.requests && s.at[t].Running? && s.requests[t].valid && s.at[t].done == |s.requests[t].shards|
    case ReleaseCut(t) => t in s.at && s.at[t].Settled?
    case Begin => s.saving.Idle?
    case SaveShard => s.saving.Shards? && |s.saving.saved| < |s.velocity|
    case LockCut => s.saving.Shards? && |s.saving.saved| == |s.velocity| && forall t :: t in s.at ==> !HasCut(s.at[t])
    case CopyEntries => s.saving.Locked?
    case Write => s.saving.Copied?
    case Restart => true
  }

  function ReadyOnly(m: map<string, Entry>): map<string, Entry> { map k | k in m && m[k].Ready? :: m[k] }

  ghost function Apply(s: State, x: Step): State
    requires Enabled(s, x)
  {
    match x
    case Arrive(t, r) => s.(requests := s.requests[t := r], at := s.at[t := Arrived])
    case Claim(t) =>
      var r := s.requests[t];
      if r.key in s.entries then
        var e := s.entries[r.key];
        s.(at := s.at[t := Answered(if e.Ready? && e.hash == r.hash then Stored(e.answer) else KeyReused)])
      else s.(at := s.at[t := Claimed], entries := s.entries[r.key := InFlight(t)])
    case TakeCut(t) => s.(at := s.at[t := Running(0)])
    case Reject(t) => s.(at := s.at[t := Settled(Rejected)], entries := s.entries - {s.requests[t].key})
    case Update(t) =>
      var i := s.requests[t].shards[s.at[t].done];
      s.(at := s.at[t := Running(s.at[t].done + 1)], velocity := s.velocity[i := s.velocity[i] + {t}])
    case Settle(t) =>
      var r := s.requests[t];
      s.(at := s.at[t := Settled(Assessed(r.answer))], entries := s.entries[r.key := Ready(r.hash, r.answer)])
    case ReleaseCut(t) => s.(at := s.at[t := Answered(s.at[t].reply)])
    case Begin => s.(saving := Shards([]))
    case SaveShard => s.(saving := Shards(s.saving.saved + [s.velocity[|s.saving.saved|]]))
    case LockCut => s.(saving := Locked(s.saving.saved))
    case CopyEntries => s.(saving := Copied(s.saving.saved, ReadyOnly(s.entries)))
    case Write => s.(saving := Idle, file := Some(File(s.saving.saved, s.saving.entries)))
    case Restart =>
      // requests under way die with the process
      if s.file.Some? then s.(at := map[], velocity := s.file.value.velocity, entries := s.file.value.entries,
        saving := Idle)
      else s.(at := map[], velocity := NoShards(|s.velocity|), entries := map[], saving := Idle)
  }

  // ---- the invariant ---------------------------------------------------------------------------

  /** The request's update is in this velocity state. */
  predicate Counted(velocity: seq<set<nat>>, t: nat) { exists i :: 0 <= i < |velocity| && t in velocity[i] }

  /** The request's answer is stored under its key. */
  predicate AnswerIn(s: State, entries: map<string, Entry>, t: nat) {
    && t in s.requests && s.requests[t].key in entries
    && entries[s.requests[t].key] == Ready(s.requests[t].hash, s.requests[t].answer)
  }

  /** The request owns its key's claim and has begun to update. */
  predicate UnderWay(s: State, t: nat) { t in s.at && t in s.requests && s.at[t].Running? && s.at[t].done > 0 }

  /** A counted request is still under way or has its answer stored. */
  ghost predicate CountedOk(s: State, velocity: seq<set<nat>>) {
    forall t :: Counted(velocity, t) ==> AnswerIn(s, s.entries, t) || UnderWay(s, t)
  }

  /** Every counted request has its answer stored. */
  ghost predicate Answers(s: State, velocity: seq<set<nat>>, entries: map<string, Entry>) {
    forall t :: Counted(velocity, t) ==> AnswerIn(s, entries, t)
  }

  /** Two requests with one key are never both counted. */
  ghost predicate Single(s: State, velocity: seq<set<nat>>) {
    forall t, u ::
      Counted(velocity, t) && Counted(velocity, u) && t in s.requests && u in s.requests &&
      s.requests[t].key == s.requests[u].key ==>
        t == u
  }

  /** Owners hold their keys' claims. */
  ghost predicate ClaimsOk(s: State) {
    && (forall t :: t in s.at ==> t in s.requests)
    && (forall t :: t in s.at && (s.at[t].Claimed? || s.at[t].Running?) ==>
          s.requests[t].key in s.entries && s.entries[s.requests[t].key] == InFlight(t))
  }

  ghost predicate SavingOk(s: State) {
    match s.saving
    case Idle => true
    case Shards(saved) => |saved| <= |s.velocity| && (forall i :: 0 <= i < |saved| ==> saved[i] <= s.velocity[i])
    case Locked(saved) =>
      && |saved| == |s.velocity| && (forall i :: 0 <= i < |saved| ==> saved[i] <= s.velocity[i])
      && (forall t :: t in s.at ==> !HasCut(s.at[t]))
    case Copied(saved, entries) =>
      |saved| == |s.velocity| && Answers(s, saved, entries) && Single(s, saved) && ReadyOnly(entries) == entries
  }

  ghost predicate FileOk(s: State) {
    s.file.Some? ==>
      && |s.file.value.velocity| == |s.velocity| && Answers(s, s.file.value.velocity, s.file.value.entries)
      && Single(s, s.file.value.velocity) && ReadyOnly(s.file.value.entries) == s.file.value.entries
  }

  ghost predicate Inv(s: State) {
    CountedOk(s, s.velocity) && Single(s, s.velocity) && ClaimsOk(s) && SavingOk(s) && FileOk(s)
  }

  lemma CountedMore(less: seq<set<nat>>, more: seq<set<nat>>, t: nat)
    requires |less| <= |more| && forall i :: 0 <= i < |less| ==> less[i] <= more[i]
    ensures Counted(less, t) ==> Counted(more, t)
  {}

  // ---- one step ----------------------------------------------------------------------------------

  /** What only adds requests or moves requests that have counted nothing keeps what is stored. */
  lemma StoredStays(s: State, z: State)
    requires SavingOk(s) && FileOk(s) && z.saving == s.saving && z.file == s.file && |z.velocity| == |s.velocity|
    requires forall t :: t in s.requests ==> t in z.requests && z.requests[t] == s.requests[t]
    requires forall i :: 0 <= i < |s.velocity| ==> s.velocity[i] <= z.velocity[i]
    requires s.saving.Locked? ==> forall t :: t in z.at ==> !HasCut(z.at[t])
    ensures SavingOk(z) && FileOk(z)
  {
    hide Counted;
  }

  lemma ArrivesInv(s: State, x: Step)
    requires Inv(s) && Enabled(s, x) && x.Arrive?
    ensures Inv(Apply(s, x))
  {
    var z := Apply(s, x);
    StoredStays(s, z);
    hide Counted, SavingOk, FileOk;
  }

  lemma ClaimsInv(s: State, t: nat)
    requires Inv(s) && Enabled(s, Claim(t))
    ensures Inv(Apply(s, Claim(t)))
  {
    var z := Apply(s, Claim(t));
    StoredStays(s, z);
    hide Counted, SavingOk, FileOk;
    forall u | Counted(z.velocity, u) ensures AnswerIn(z, z.entries, u) || UnderWay(z, u) {
      assert AnswerIn(s, s.entries, u) || UnderWay(s, u);
    }
  }

  lemma CutInv(s: State, x: Step)
    requires Inv(s) && Enabled(s, x) && (x.TakeCut? || x.ReleaseCut?)
    ensures Inv(Apply(s, x))
  {
    var z := Apply(s, x);
    StoredStays(s, z);
    hide Counted, SavingOk, FileOk;
    forall u | Counted(z.velocity, u) ensures AnswerIn(z, z.entries, u) || UnderWay(z, u) {
      assert AnswerIn(s, s.entries, u) || UnderWay(s, u);
    }
  }

  lemma RejectsInv(s: State, t: nat)
    requires Inv(s) && Enabled(s, Reject(t))
    ensures Inv(Apply(s, Reject(t)))
  {
    var z := Apply(s, Reject(t));
    StoredStays(s, z);
    hide Counted, SavingOk, FileOk;
    forall u | Counted(z.velocity, u) ensures AnswerIn(z, z.entries, u) || UnderWay(z, u) {
      assert AnswerIn(s, s.entries, u) || UnderWay(s, u);
    }
  }

  lemma UpdatesInv(s: State, t: nat)
    requires Inv(s) && Enabled(s, Update(t))
    ensures Inv(Apply(s, Update(t)))
  {
    var z := Apply(s, Update(t));
    StoredStays(s, z);
    forall u ensures Counted(z.velocity, u) ==> u == t || Counted(s.velocity, u) {
      if Counted(z.velocity, u) && u != t {
        var i :| 0 <= i < |z.velocity| && u in z.velocity[i];
        assert u in s.velocity[i];
      }
    }
    hide Counted, SavingOk, FileOk;
    forall u | Counted(z.velocity, u) ensures AnswerIn(z, z.entries, u) || UnderWay(z, u) {
      if u != t { assert AnswerIn(s, s.entries, u) || UnderWay(s, u); }
    }
    OwnerIsAlone(s, t);
  }

  /** While a request owns its key's claim, no other request with the key has been counted. */
  lemma OwnerIsAlone(s: State, t: nat)
    requires CountedOk(s, s.velocity) && ClaimsOk(s) && t in s.at && s.at[t].Running?
    ensures t in s.requests
    ensures forall u :: Counted(s.velocity, u) && u in s.requests && s.requests[u].key == s.requests[t].key ==> u == t
  {
    hide Counted;
    forall u | Counted(s.velocity, u) && u in s.requests && s.requests[u].key == s.requests[t].key ensures u == t {
      assert AnswerIn(s, s.entries, u) || UnderWay(s, u);
    }
  }

  lemma SettlesInv(s: State, t: nat)
    requires Inv(s) && Enabled(s, Settle(t))
    ensures Inv(Apply(s, Settle(t)))
  {
    var z := Apply(s, Settle(t));
    StoredStays(s, z);
    OwnerIsAlone(s, t);
    hide Counted, SavingOk, FileOk;
    forall u | Counted(z.velocity, u) ensures AnswerIn(z, z.entries, u) || UnderWay(z, u) {
      assert AnswerIn(s, s.entries, u) || UnderWay(s, u);
    }
  }

  lemma SavesInv(s: State, x: Step)
    requires Inv(s) && Enabled(s, x) && (x.Begin? || x.SaveShard? || x.LockCut? || x.Write?)
    ensures Inv(Apply(s, x))
  {
    hide Counted, CountedOk, Single, ClaimsOk, Answers;
    StillCounted(s, Apply(s, x));
  }

  /** Nothing a snapshot does between its steps touches the requests. */
  lemma StillCounted(s: State, z: State)
    requires CountedOk(s, s.velocity) && Single(s, s.velocity) && ClaimsOk(s)
    requires z.requests == s.requests && z.at == s.at && z.velocity == s.velocity && z.entries == s.entries
    ensures CountedOk(z, z.velocity) && Single(z, z.velocity) && ClaimsOk(z)
    ensures forall v, e :: Answers(s, v, e) ==> Answers(z, v, e)
    ensures forall v :: Single(s, v) ==> Single(z, v)
  {
    hide Counted;
  }

  lemma CopiesInv(s: State)
    requires Inv(s) && Enabled(s, CopyEntries)
    ensures Inv(Apply(s, CopyEntries))
  {
    CopyAnswers(s);
    hide Counted, CountedOk, Single, ClaimsOk, Answers;
    StillCounted(s, Apply(s, CopyEntries));
  }

  /** With the cut held, nobody is between an update and its answer: the copy answers all that is saved. */
  lemma CopyAnswers(s: State)
    requires Inv(s) && s.saving.Locked?
    ensures Answers(s, s.saving.saved, ReadyOnly(s.entries)) && Single(s, s.saving.saved)
  {
    forall t
      ensures Counted(s.saving.saved, t) ==> Counted(s.velocity, t) { CountedMore(s.saving.saved, s.velocity, t); }
    hide Counted, FileOk;
    forall t | Counted(s.saving.saved, t) ensures AnswerIn(s, ReadyOnly(s.entries), t) {
      assert AnswerIn(s, s.entries, t) || UnderWay(s, t);
    }
  }

  lemma RestartsInv(s: State)
    requires Inv(s)
    ensures Inv(Apply(s, Restart))
  {
    var z := Apply(s, Restart);
    if s.file.None? {
      assert forall t :: !Counted(z.velocity, t);
    }
    hide Counted;
  }

  lemma StepInv(s: State, x: Step)
    requires Inv(s) && Enabled(s, x)
    ensures Inv(Apply(s, x))
  {
    hide Inv, Apply, Enabled;
    match x
    case Arrive(_, _) => ArrivesInv(s, x);
    case Claim(t) => ClaimsInv(s, t);
    case TakeCut(_) | ReleaseCut(_) => CutInv(s, x);
    case Reject(t) => RejectsInv(s, t);
    case Update(t) => UpdatesInv(s, t);
    case Settle(t) => SettlesInv(s, t);
    case CopyEntries => CopiesInv(s);
    case Restart => RestartsInv(s);
    case _ => SavesInv(s, x);
  }

  // ---- runs ---------------------------------------------------------------------------------------

  ghost predicate Legal(n: nat, steps: seq<Step>)
    decreases |steps|, 0
  {
    steps != [] ==> Legal(n, steps[..|steps| - 1]) && Enabled(End(n, steps[..|steps| - 1]), steps[|steps| - 1])
  }

  /** The state after a run of a service with n shards. */
  ghost function End(n: nat, steps: seq<Step>): State
    requires Legal(n, steps)
    decreases |steps|, 1
  {
    if steps == [] then Start(n) else Apply(End(n, steps[..|steps| - 1]), steps[|steps| - 1])
  }

  lemma StartInv(n: nat)
    ensures Inv(Start(n))
  {}

  lemma {:induction false} RunInv(n: nat, steps: seq<Step>)
    requires Legal(n, steps)
    ensures Inv(End(n, steps))
    decreases |steps|
  {
    hide Inv, Apply, Enabled, Start;
    if steps == [] {
      StartInv(n);
    } else {
      RunInv(n, steps[..|steps| - 1]);
      StepInv(End(n, steps[..|steps| - 1]), steps[|steps| - 1]);
    }
  }

  /** Two requests with one key are both in the velocity state. */
  predicate BothCounted(s: State, t: nat, u: nat) {
    && Counted(s.velocity, t) && Counted(s.velocity, u) && t in s.requests && u in s.requests
    && s.requests[t].key == s.requests[u].key
  }

  /** In every run no two requests with one key are both counted, and a file's answers cover all that its velocity
  shards have counted. */
  lemma CountedOnceAndAnswered(n: nat, steps: seq<Step>, t: nat, u: nat)
    requires Legal(n, steps)
    ensures var s := End(n, steps); BothCounted(s, t, u) ==> t == u
    ensures var s := End(n, steps);
            s.file.Some? && Counted(s.file.value.velocity, t) ==> AnswerIn(s, s.file.value.entries, t)
  {
    RunInv(n, steps);
    hide Legal, End, Counted;
  }

  /** A retry of a saved payment after a restart gets the first answer and counts nothing. */
  lemma RetryAfterRestart(n: nat, steps: seq<Step>, t: nat, u: nat, r: Request)
    requires Legal(n, steps)
    requires var s := End(n, steps);
             && s.file.Some? && Counted(s.file.value.velocity, t) && u !in s.requests && t in s.requests
             && r.key == s.requests[t].key && r.hash == s.requests[t].hash && InShards(s, r)
    ensures var s := End(n, steps);
            var back := Apply(s, Restart);
            && Enabled(back, Arrive(u, r)) && Enabled(Apply(back, Arrive(u, r)), Claim(u))
            && var z := Apply(Apply(back, Arrive(u, r)), Claim(u));
               z.at[u] == Answered(Stored(s.requests[t].answer)) && z.velocity == back.velocity
  {
    RunInv(n, steps);
    var s := End(n, steps);
    hide Legal, End, Counted;
    assert AnswerIn(s, s.file.value.entries, t);
  }
}
