/** Dispute labels: what one event does, the label log, snapshots and recovery after a crash
(internal/service/labels.go). */
module Labels {
  import opened Domain

  datatype EventType = PaymentSucceeded | DisputeCreated | DisputeClosed

  /** What the store keeps of a webhook event, under the number it was given. */
  datatype Record = Record(
    seqNo: nat, kind: EventType, created: int, payment: string, dispute: string, reason: string, status: string,
      amount: int)

  datatype DisputeState = DisputeState(reason: string, status: string, closed: bool, amount: int, updated: int)
  datatype PaymentLabel = PaymentLabel(succeeded: bool, disputes: map<string, DisputeState>)
  type LabelMap = map<string, PaymentLabel>

  // ---- one event ---------------------------------------------------------------------------

  const NO_LABEL := PaymentLabel(false, map[])

  function LabelOf(m: LabelMap, id: string): PaymentLabel { if id in m then m[id] else NO_LABEL }

  /** The state a dispute takes from an event, unless the event is stale or a creation in the second of
  the closing. */
  function Upserted(d: Option<DisputeState>, r: Record): DisputeState {
    var closed := r.kind == DisputeClosed;
    if d.Some? && r.created < d.value.updated then d.value
    else if d.Some? && d.value.closed && !closed && r.created == d.value.updated then d.value
    else DisputeState(r.reason, r.status, closed || (d.Some? && d.value.closed), r.amount, r.created)
  }

  function DisputeOf(m: LabelMap, payment: string, dispute: string): Option<DisputeState> {
    var ds := LabelOf(m, payment).disputes;
    if dispute in ds then Some(ds[dispute]) else None
  }

  function Applied(m: LabelMap, r: Record): LabelMap {
    var p := LabelOf(m, r.payment);
    if r.kind == PaymentSucceeded then m[r.payment := p.(succeeded := true)]
    else m[r.payment := p.(disputes := p.disputes[r.dispute := Upserted(DisputeOf(m, r.payment, r.dispute), r)])]
  }

  function AppliedAll(m: LabelMap, rs: seq<Record>): LabelMap {
    if rs == [] then m else Applied(AppliedAll(m, rs[..|rs| - 1]), rs[|rs| - 1])
  }

  /** A payment is known to have succeeded exactly when an event said so. */
  lemma {:induction false} SucceededWasSaid(rs: seq<Record>, payment: string)
    ensures LabelOf(AppliedAll(map[], rs), payment).succeeded <==>
              exists i :: 0 <= i < |rs| && rs[i].kind == PaymentSucceeded && rs[i].payment == payment
    decreases |rs|
  {
    if rs != [] {
      var front, last := rs[..|rs| - 1], rs[|rs| - 1];
      SucceededWasSaid(front, payment);
      assert forall i :: 0 <= i < |front| ==> front[i] == rs[i];
      if last.kind == PaymentSucceeded && last.payment == payment {
        assert LabelOf(AppliedAll(map[], rs), payment).succeeded;
      } else {
        assert LabelOf(AppliedAll(map[], rs), payment).succeeded
            == LabelOf(AppliedAll(map[], front), payment).succeeded;
      }
      hide AppliedAll;
    }
  }

  // ---- deliveries of one dispute -------------------------------------------------------------

  predicate About(r: Record, payment: string, dispute: string) {
    r.kind != PaymentSucceeded && r.payment == payment && r.dispute == dispute
  }

  /** The same event, whenever it was logged. */
  predicate SameEvent(r: Record, s: Record) { r.(seqNo := 0) == s.(seqNo := 0) }

  function Closing(x: Record): DisputeState { DisputeState(x.reason, x.status, true, x.amount, x.created) }

  /** With one creation and one closing, not earlier, every order and number of deliveries ends in the
  closing's state once it has been delivered, whatever else the log holds. */
  lemma {:induction false} DeliveriesConverge(rs: seq<Record>, created: Record, closed: Record)
    requires created.kind == DisputeCreated && closed.kind == DisputeClosed && created.created <= closed.created
    requires About(created, closed.payment, closed.dispute)
    requires forall i :: 0 <= i < |rs| && About(rs[i], closed.payment, closed.dispute) ==>
               SameEvent(rs[i], created) || SameEvent(rs[i], closed)
    ensures var d := DisputeOf(AppliedAll(map[], rs), closed.payment, closed.dispute);
            if exists i :: 0 <= i < |rs| && SameEvent(rs[i], closed) then d == Some(Closing(closed))
            else if exists i :: 0 <= i < |rs| && SameEvent(rs[i], created)
            then d == Some(DisputeState(created.reason, created.status, false, created.amount, created.created))
            else d == None
    decreases |rs|
  {
    if rs != [] {
      var front, r := rs[..|rs| - 1], rs[|rs| - 1];
      DeliveriesConverge(front, created, closed);
      Elsewhere(AppliedAll(map[], front), r, closed.payment, closed.dispute);
      assert forall i :: 0 <= i < |front| ==> front[i] == rs[i];
    }
  }

  lemma Elsewhere(m: LabelMap, r: Record, payment: string, dispute: string)
    ensures DisputeOf(Applied(m, r), payment, dispute) ==
              if About(r, payment, dispute) then Some(Upserted(DisputeOf(m, payment, dispute), r))
                else DisputeOf(m, payment, dispute)
  {
    hide Upserted;
  }

  // ---- the store and its log -----------------------------------------------------------------

  /** A running store; applied is history: what its labels were made of. */
  datatype Memory = Memory(seqNo: nat, labels: LabelMap, applied: seq<Record>)

  /** The log file's lines, None being one that is no record; how many of them are certainly on disk; and whether a
  fragment of a line stands after them. acked is history: the events acknowledged. */
  datatype Disk = Disk(log: seq<Option<Record>>, synced: nat, torn: bool, snap: Option<Memory>)

  datatype State = State(disk: Disk, memory: Option<Memory>, copied: Option<Memory>, acked: seq<Record>)

  const FRESH := Memory(0, map[], [])
  const START := State(Disk([], 0, false, None), Some(FRESH), None, [])

  /** Every line is a record. */
  predicate Readable(log: seq<Option<Record>>) { forall i :: 0 <= i < |log| ==> log[i].Some? }

  /** Applies the log records after a sequence number. */
  function Replayed(m: Memory, log: seq<Option<Record>>, n: nat): Memory
    requires n <= |log|
  {
    if n == 0 then m
    else
      var before := Replayed(m, log, n - 1);
      var r := log[n - 1];
      if r.None? || r.value.seqNo <= before.seqNo then before
      else Memory(r.value.seqNo, Applied(before.labels, r.value), before.applied + [r.value])
  }

  function Recovered(d: Disk): Memory { Replayed(if d.snap.Some? then d.snap.value else FRESH, d.log, |d.log|) }

  /** How appending a line can end: nothing written, part of it written, all written but the sync failed, or synced. */
  datatype Outcome = NotWritten | Partly | NotSynced | Synced

  datatype Step =
    | Receive(r: Record, end: Outcome) // a webhook event, before it has its sequence number
    | Copy | Publish                   // a snapshot: the labels are copied, later the file is renamed
    | Crash(kept: nat, torn: bool) | Restart

  predicate Enabled(s: State, x: Step) {
    match x
    case Receive(_, _) => s.memory.Some?
    case Copy => s.memory.Some?
    case Publish => s.memory.Some? && s.copied.Some?
    case Crash(kept, _) => s.disk.synced <= kept <= |s.disk.log|
    case Restart => s.memory.None?
  }

  /** The number is spent whatever happens; the event is applied and acknowledged only once synced. A line written
  after a fragment makes one line with it, which is no record. */
  function Received(s: State, e: Record, end: Outcome): State
    requires s.memory.Some?
  {
    var m := s.memory.value;
    var r := e.(seqNo := m.seqNo + 1);
    var d := s.disk;
    var log := d.log + [if d.torn then None else Some(r)];
    match end
    case NotWritten => s.(memory := Some(m.(seqNo := r.seqNo)))
    case Partly => s.(memory := Some(m.(seqNo := r.seqNo)), disk := d.(torn := true))
    case NotSynced => s.(memory := Some(m.(seqNo := r.seqNo)), disk := d.(log := log, torn := false))
    case Synced =>
      State(d.(log := log, synced := |log|, torn := false),
            Some(Memory(r.seqNo, Applied(m.labels, r), m.applied + [r])), s.copied, s.acked + [r])
  }

  /** A restart cuts off a final fragment; a line that is no record is an error, and the store stays closed. */
  function Apply(s: State, x: Step): State
    requires Enabled(s, x)
  {
    match x
    case Receive(r, end) => Received(s, r, end)
    case Copy => s.(copied := s.memory)
    case Publish => s.(disk := s.disk.(snap := s.copied), copied := None)
    case Crash(kept, torn) => State(s.disk.(log := s.disk.log[..kept], synced := kept, torn := torn), None, None,
      s.acked)
    case Restart => if Readable(s.disk.log) then s.(disk := s.disk.(torn := false), memory := Some(Recovered(s.disk)))
      else s
  }

  // ---- what a crash cannot lose ----------------------------------------------------------------

  predicate Ascending(log: seq<Option<Record>>) {
    forall i, j :: 0 <= i < j < |log| && log[i].Some? && log[j].Some? ==> log[i].value.seqNo < log[j].value.seqNo
  }

  /** The labels are what the applied records make. */
  predicate Folded(m: Memory) { m.labels == AppliedAll(map[], m.applied) }

  /** Every acknowledged event is in the memory's labels. */
  predicate Knows(m: Memory, acked: seq<Record>, upTo: nat)
  {
    forall r :: r in acked && r.seqNo <= upTo ==> r in m.applied
  }

  /** A copy of the labels at some time: it knows what was acknowledged up to its sequence number. */
  predicate CopyOk(m: Memory, acked: seq<Record>) { Folded(m) && Knows(m, acked, m.seqNo) }

  /** No record in the log is numbered above n. */
  predicate Numbered(log: seq<Option<Record>>, n: nat)
  {
    forall i :: 0 <= i < |log| && log[i].Some? ==> 0 < log[i].value.seqNo <= n
  }

  /** An acknowledged event is safely in the log, unless a line there is no record. */
  predicate Kept(d: Disk, r: Record)
    requires d.synced <= |d.log|
  {
    exists i :: 0 <= i < d.synced && (d.log[i] == Some(r) || d.log[i].None?)
  }

  predicate Inv(s: State) {
    && Ascending(s.disk.log) && s.disk.synced <= |s.disk.log|
    && (forall i :: 0 <= i < |s.disk.log| && s.disk.log[i].Some? ==> s.disk.log[i].value.seqNo > 0)
    && (forall r :: r in s.acked ==> Kept(s.disk, r))
    && (s.memory.Some? ==>
          && CopyOk(s.memory.value, s.acked) && Numbered(s.disk.log, s.memory.value.seqNo)
          && (forall r :: r in s.acked ==> r.seqNo <= s.memory.value.seqNo))
    && (s.copied.Some? ==>
          CopyOk(s.copied.value, s.acked) && s.memory.Some? && s.copied.value.seqNo <= s.memory.value.seqNo)
    && (s.disk.snap.Some? ==>
          CopyOk(s.disk.snap.value, s.acked) && (s.memory.Some? ==> s.disk.snap.value.seqNo <= s.memory.value.seqNo))
  }

  lemma FoldsMore(m: Memory, r: Record)
    requires Folded(m)
    ensures Folded(Memory(r.seqNo, Applied(m.labels, r), m.applied + [r]))
  {
    hide Applied;
    assert (m.applied + [r])[..|m.applied|] == m.applied;
  }

  lemma {:induction false} ReplayedKnows(m: Memory, log: seq<Option<Record>>, n: nat)
    requires n <= |log| && Ascending(log) && Folded(m)
    ensures var z := Replayed(m, log, n);
            && Folded(z) && z.seqNo >= m.seqNo && m.applied <= z.applied
            && (forall i :: 0 <= i < n && log[i].Some? ==> log[i].value.seqNo <= z.seqNo)
            && (z.seqNo == m.seqNo || exists i :: 0 <= i < n && log[i].Some? && log[i].value.seqNo == z.seqNo)
            && (forall i :: 0 <= i < n && log[i].Some? && log[i].value.seqNo > m.seqNo ==> log[i].value in z.applied)
    decreases n
  {
    hide Applied, Folded;
    if n > 0 {
      ReplayedKnows(m, log, n - 1);
      if log[n - 1].Some? { FoldsMore(Replayed(m, log, n - 1), log[n - 1].value); }
    }
  }

  lemma RecoversInv(s: State)
    requires Inv(s) && Enabled(s, Restart)
    ensures Inv(Apply(s, Restart))
  {
    hide Folded;
    if Readable(s.disk.log) {
      var m := if s.disk.snap.Some? then s.disk.snap.value else FRESH;
      assert Folded(FRESH) by { NothingFolds(); }
      ReplayedKnows(m, s.disk.log, |s.disk.log|);
      var z := Recovered(s.disk);
      forall r | r in s.acked ensures r in z.applied && r.seqNo <= z.seqNo {
        var i :| 0 <= i < s.disk.synced && s.disk.log[i] == Some(r);
        if r.seqNo <= m.seqNo && s.disk.snap.Some? { assert r in m.applied; }
      }
    }
  }

  lemma NothingFolds()
    ensures Folded(FRESH)
  {}

  lemma FoldsAnyway(m: Memory, seqNo: nat)
    ensures Folded(m) == Folded(m.(seqNo := seqNo))
  {}

  lemma ReceivesInv(s: State, r: Record, end: Outcome)
    requires Inv(s) && Enabled(s, Receive(r, end))
    ensures Inv(Apply(s, Receive(r, end)))
  {
    hide Applied, Folded;
    var m, z := s.memory.value, Apply(s, Receive(r, end));
    var x := r.(seqNo := m.seqNo + 1);
    FoldsMore(m, x);
    FoldsAnyway(m, x.seqNo);
    forall a | a in s.acked ensures Kept(z.disk, a) { StaysKept(s.disk, z.disk, a); }
    if end.Synced? { assert z.disk.log[|s.disk.log|] == Some(x) || z.disk.log[|s.disk.log|].None?; }
  }

  lemma StaysKept(d: Disk, z: Disk, r: Record)
    requires d.synced <= |d.log| && d.synced <= z.synced <= |z.log| && d.log <= z.log && Kept(d, r)
    ensures Kept(z, r)
  {
    var i :| 0 <= i < d.synced && (d.log[i] == Some(r) || d.log[i].None?);
    assert z.log[i] == d.log[i];
  }

  lemma CrashesInv(s: State, kept: nat, torn: bool)
    requires Inv(s) && Enabled(s, Crash(kept, torn))
    ensures Inv(Apply(s, Crash(kept, torn)))
  {
    hide Applied, Folded;
    var z := Apply(s, Crash(kept, torn));
    forall a | a in s.acked ensures Kept(z.disk, a) {
      var i :| 0 <= i < s.disk.synced && (s.disk.log[i] == Some(a) || s.disk.log[i].None?);
      assert z.disk.log[i] == s.disk.log[i];
    }
  }

  lemma StepInv(s: State, x: Step)
    requires Inv(s) && Enabled(s, x)
    ensures Inv(Apply(s, x))
  {
    match x
    case Receive(r, end) => ReceivesInv(s, r, end);
    case Crash(kept, torn) => CrashesInv(s, kept, torn);
    case Restart => RecoversInv(s);
    case _ => hide Applied, Folded;
  }

  // ---- runs --------------------------------------------------------------------------------------

  predicate Legal(steps: seq<Step>)
    decreases |steps|, 0
  {
    steps != [] ==> Legal(steps[..|steps| - 1]) && Enabled(End(steps[..|steps| - 1]), steps[|steps| - 1])
  }

  function End(steps: seq<Step>): State
    requires Legal(steps)
    decreases |steps|, 1
  {
    if steps == [] then START else Apply(End(steps[..|steps| - 1]), steps[|steps| - 1])
  }

  lemma {:induction false} RunInv(steps: seq<Step>)
    requires Legal(steps)
    ensures Inv(End(steps))
    decreases |steps|
  {
    hide Inv, Enabled, Apply;
    if steps == [] {
      StartInv();
    } else {
      RunInv(steps[..|steps| - 1]);
      StepInv(End(steps[..|steps| - 1]), steps[|steps| - 1]);
    }
  }

  lemma StartInv()
    ensures Inv(START)
  {}

  /** The records after a sequence number. */
  function After(log: seq<Option<Record>>, seqNo: nat): seq<Record> {
    if log == [] then []
    else
      var r := log[|log| - 1];
      After(log[..|log| - 1], seqNo) + if r.Some? && r.value.seqNo > seqNo then [r.value] else []
  }

  lemma {:induction false} ReplayedIs(m: Memory, log: seq<Option<Record>>, n: nat)
    requires n <= |log| && Ascending(log) && Folded(m)
    ensures Replayed(m, log, n).applied == m.applied + After(log[..n], m.seqNo)
    decreases n
  {
    if n == 0 {
      assert After(log[..0], m.seqNo) == [] && m.applied + [] == m.applied;
    } else {
      ReplayedIs(m, log, n - 1);
      ReplayedKnows(m, log, n - 1);
      assert log[..n][..n - 1] == log[..n - 1];
      hide After, Folded, Applied;
      AfterOne(log[..n], m.seqNo);
    }
  }

  lemma AfterOne(log: seq<Option<Record>>, seqNo: nat)
    requires log != []
    ensures var r := log[|log| - 1];
            After(log, seqNo)
            == After(log[..|log| - 1], seqNo) + if r.Some? && r.value.seqNo > seqNo then [r.value] else []
  {}

  /** A store that runs has every acknowledged event in its labels, however often it crashed and whatever appends
  failed. After a crash a restart opens it if and only if every line of the log is a record; its labels are then
  those of the snapshot's records followed by the log's records after it. */
  lemma NothingAcknowledgedIsLost(steps: seq<Step>)
    requires Legal(steps)
    ensures var s := End(steps);
            s.memory.Some? ==>
              && s.memory.value.labels == AppliedAll(map[], s.memory.value.applied)
              && forall r :: r in s.acked ==> r in s.memory.value.applied
    ensures var s := End(steps);
            s.memory.None? ==>
              var z, from := Apply(s, Restart), if s.disk.snap.Some? then s.disk.snap.value else FRESH;
              && (z.memory.Some? <==> Readable(s.disk.log))
              && (z.memory.Some? ==>
                    && z.memory.value.labels == AppliedAll(map[], from.applied + After(s.disk.log, from.seqNo))
                    && forall r :: r in s.acked ==> r in z.memory.value.applied)
  {
    hide AppliedAll, Applied, Legal, End, After, Replayed;
    RunInv(steps);
    var s := End(steps);
    if s.memory.None? {
      var from := if s.disk.snap.Some? then s.disk.snap.value else FRESH;
      NothingFolds();
      ReplayedIs(from, s.disk.log, |s.disk.log|);
      ReplayedKnows(from, s.disk.log, |s.disk.log|);
      assert s.disk.log[..|s.disk.log|] == s.disk.log;
      RecoversInv(s);
    }
  }

  // ---- an append that fails half-way ---------------------------------------------------------------

  /** A whole line is written after a fragment. */
  predicate Spoils(s: State, x: Step) { x.Receive? && s.disk.torn && (x.end.NotSynced? || x.end.Synced?) }

  /** A readable log stays so exactly unless a whole line is written after a fragment: then a restart would not open
  it, and if the line was synced none ever will. */
  lemma SpoiltExactly(s: State, x: Step)
    requires Inv(s) && Enabled(s, x) && Readable(s.disk.log)
    ensures Readable(Apply(s, x).disk.log) <==> !Spoils(s, x)
    ensures Spoils(s, x) && x.end.Synced? ==> Spoilt(Apply(s, x))
  {
    hide Applied, Replayed;
    var z := Apply(s, x);
    if Spoils(s, x) { assert z.disk.log[|s.disk.log|].None?; }
  }

  /** A line that is no record is certainly on disk. */
  predicate Spoilt(s: State) { exists i :: 0 <= i < s.disk.synced && i < |s.disk.log| && s.disk.log[i].None? }

  lemma SpoiltForGood(s: State, x: Step)
    requires Inv(s) && Enabled(s, x) && Spoilt(s)
    ensures Spoilt(Apply(s, x)) && (x.Restart? ==> Apply(s, x).memory.None?)
  {
    hide Applied, Replayed;
    var i :| 0 <= i < s.disk.synced && s.disk.log[i].None?;
    var z := Apply(s, x);
    assert !Readable(s.disk.log);
    assert z.disk.log[i] == s.disk.log[i] && i < z.disk.synced;
  }

  /** An append fails half-way, the event is delivered again and acknowledged, and the log cannot be opened any more. */
  lemma FragmentSpoils(r: Record) returns (steps: seq<Step>)
    ensures Legal(steps) && End(steps).memory.None? && End(steps).acked == [r.(seqNo := 2)]
    ensures Apply(End(steps), Restart).memory.None?
  {
    hide Applied, Replayed;
    var s1 := Apply(START, Receive(r, Partly));
    var s2 := Apply(s1, Receive(r, Synced));
    var s3 := Apply(s2, Crash(1, false));
    assert s2.disk.log == [None] && s3.disk.log == [None] && s3.disk.log[0].None?;
    assert s2.acked == [r.(seqNo := 2)];
    steps := [Receive(r, Partly), Receive(r, Synced), Crash(1, false)];
    assert steps[..2] == [Receive(r, Partly), Receive(r, Synced)] && steps[..2][..1] == [Receive(r, Partly)];
    assert steps[..2][..1][..0] == [];
    assert Legal(steps[..2][..1]) && End(steps[..2][..1]) == s1;
    assert Legal(steps[..2]) && End(steps[..2]) == s2;
  }

  // ---- a payment's label -----------------------------------------------------------------------

  datatype Label = Unknown | Legit | Fraud

  predicate Fraudulent(d: DisputeState) { d.reason == "fraudulent" }
  predicate Won(d: DisputeState) { d.closed && d.status == "won" }

  /** Fraud if a fraudulent dispute was not won, legitimate if there are some and all were won; the order
  in which the disputes are looked at does not matter. */
  method FraudOf(p: PaymentLabel) returns (verdict: Label)
    ensures verdict == Fraud <==>
              exists id :: id in p.disputes && p.disputes[id].reason == "fraudulent"
                && !(p.disputes[id].closed && p.disputes[id].status == "won")
    ensures verdict == Unknown <==> forall id :: id in p.disputes ==> p.disputes[id].reason != "fraudulent"
  {
    verdict := Unknown;
    var ids := p.disputes.Keys;
    while ids != {}
      invariant ids <= p.disputes.Keys && verdict != Fraud
      invariant verdict == Legit <==> exists id :: id in p.disputes && id !in ids && Fraudulent(p.disputes[id])
      invariant forall id :: id in p.disputes && id !in ids && Fraudulent(p.disputes[id]) ==> Won(p.disputes[id])
      decreases ids
    {
      var id :| id in ids;
      var d := p.disputes[id];
      ids := ids - {id};
      if !Fraudulent(d) { continue; }
      if !Won(d) { return Fraud; }
      verdict := Legit;
    }
  }

  // ---- the store itself -------------------------------------------------------------------------

  class LabelStore {
    var seqNo: nat
    var payments: LabelMap
    var log: seq<Option<Record>> // the file's lines
    var torn: bool               // whether a fragment of a line follows them
    ghost var applied: seq<Record>

    ghost function Value(): Memory
      reads this
    {
      Memory(seqNo, payments, applied)
    }

    /** From a snapshot, or empty, over a log file. */
    constructor (from: Memory, log: seq<Option<Record>>, torn: bool)
      ensures Value() == from && this.log == log && this.torn == torn
    {
      seqNo, payments, applied, this.log, this.torn := from.seqNo, from.labels, from.applied, log, torn;
    }

    /** Upserts an event. */
    method ApplyRecord(r: Record)
      modifies this`payments, this`applied
      ensures payments == Applied(old(payments), r) && applied == old(applied) + [r]
    {
      applied := applied + [r];
      var p := LabelOf(payments, r.payment);
      if r.kind == PaymentSucceeded {
        payments := payments[r.payment := p.(succeeded := true)];
        return;
      }
      var closed := r.kind == DisputeClosed;
      var stays := false;
      var was := false;
      if r.dispute in p.disputes {
        var d := p.disputes[r.dispute];
        was := d.closed;
        stays := r.created < d.updated || (d.closed && !closed && r.created == d.updated);
      }
      var d := if stays then p.disputes[r.dispute]
        else DisputeState(r.reason, r.status, closed || was, r.amount, r.created);
      payments := payments[r.payment := p.(disputes := p.disputes[r.dispute := d])];
    }

    /** Brings the labels up to the log's end and cuts off a fragment there; false is the error for a line that is no
    record. */
    method ReplayLog() returns (ok: bool)
      modifies this`seqNo, this`payments, this`applied, this`torn
      ensures ok == Readable(log)
      ensures ok ==> Value() == Replayed(old(Value()), log, |log|) && !torn
    {
      hide Applied;
      for i := 0 to |log|
        invariant Value() == Replayed(old(Value()), log, i) && forall j :: 0 <= j < i ==> log[j].Some?
      {
        if log[i].None? { return false; }
        var r := log[i].value;
        if r.seqNo > seqNo {
          ApplyRecord(r);
          seqNo := r.seqNo;
        }
      }
      torn := false;
      ok := true;
    }

    /** Numbers an event and appends it; only a synced line is applied and acknowledged. */
    method Receive(e: Record, end: Outcome) returns (acked: bool)
      modifies this
      ensures acked == end.Synced?
      ensures forall d: Disk, c: Option<Memory>, a: seq<Record> :: d.log == old(log) && d.torn == old(torn) ==>
                var z := Received(State(d, Some(old(Value())), c, a), e, end);
                && z.memory == Some(Value()) && z.disk.log == log && z.disk.torn == torn
                && (acked ==> z.acked == a + [e.(seqNo := seqNo)])
    {
      hide Applied;
      seqNo := seqNo + 1;
      var r := e.(seqNo := seqNo);
      if end.NotWritten? { return false; }
      if end.Partly? {
        torn := true;
        return false;
      }
      log, torn := log + [if torn then None else Some(r)], false;
      if end.NotSynced? { return false; }
      ApplyRecord(r);
      acked := true;
    }
  }
}
