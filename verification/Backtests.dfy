/** What a proposed rule would change over the counted payments, and which rules in force cover it
(internal/backtest/report.go). */
module Backtests {
  import opened Domain
  import opened Rows
  import opened Text
  import opened Language
  import opened Columns
  import opened VectorCompiler
  import opened VectorEval
  import opened EvalMany
  import opened RuleSets
  import opened Bitmaps
  import opened Decisions

  /** What EvaluateRuleSet gives. */
  ghost predicate TableDecided(u: Unicode, rules: seq<Rule>, t: Table, words: seq<Verdicts>) {
    |words| == Words(t.n) && forall k: nat :: k < |words| ==> WordDecided(u, rules, t, k, words[k])
  }

  /** Copies one of the three sets out of the decisions. */
  method Gather(words: seq<Verdicts>, n: nat, pick: Verdicts -> Word) returns (b: Bitmap)
    requires |words| == Words(n)
    requires forall k: nat, j: nat :: k < |words| && j < WORD && pick(words[k])[j] ==> WORD * k + j < n
    ensures fresh(b) && fresh(b.w) && b.Valid() && b.n == n
    ensures forall i: nat :: i < n ==> (i in b.Rows() <==> pick(words[i / WORD])[i % WORD])
  {
    b := new Bitmap(n);
    for k := 0 to |words|
      invariant forall l :: 0 <= l < k ==> b.w[l] == pick(words[l])
    {
      b.w[k] := pick(words[k]);
    }
    hide RowsTo;
    forall i: nat | i < n ensures i in b.Rows() <==> pick(words[i / WORD])[i % WORD] { InRows(b.w[..], n, i); }
  }

  lemma InRows(ws: seq<Word>, n: nat, i: nat)
    requires i < n && |ws| == Words(n)
    ensures i in RowsTo(ws, n) <==> ws[i / WORD][i % WORD]
  {}

  /** The bits a changed row has among the decisions in force. */
  predicate ChangeBit(a: Action, allowed: bool, blocked: bool, reviewed: bool) {
    match a
    case Allow => blocked || reviewed
    case Block => !allowed && !blocked
    case Review => !allowed && !blocked && !reviewed
  }

  lemma ChangeBitMeans(u: Unicode, rules: seq<Rule>, r: Rule, row: Row, v: Verdicts, j: nat)
    requires j < WORD && |v.action| == |v.rule| == WORD && DecidedAs(u, rules, row, v, j)
    ensures Changes(u, rules, r, row) <==>
              Matches(u, r, row) && ChangeBit(r.action, v.allowed[j], v.blocked[j], v.reviewed[j])
  {
    hide Deciding, Matches;
    ActionIsRadars(u, rules, row);
    NoneDecides(u, rules, row);
    hide AnyFires;
  }

  /** The rows whose action differs once the rule is live at this position. */
  ghost function Differing(u: Unicode, rules: seq<Rule>, r: Rule, at: nat, t: Table, within: set<nat>): set<nat>
    requires at <= |rules|
  {
    set i | i in within && ActionOf(u, Inserted(rules, at, r.(shadow := false)), RowAt(t, i)) != ActionOf(u, rules,
      RowAt(t, i))
  }

  ghost function MatchedRows(u: Unicode, r: Rule, t: Table, within: set<nat>): set<nat> {
    set i | i in within && Matches(u, r, RowAt(t, i))
  }

  /** The rows of a mask evaluated over the whole table, among those counted. */
  method Match(u: Unicode, h: Hasher, r: Rule, t: Table, counted: Bitmap, order: seq<nat>) returns (m: Option<Bitmap>)
    requires Built(t) && Sane(u) && counted.Valid() && counted.n == t.n
    requires forall k: nat :: CHUNK * k < t.n <==> k in order
    ensures m.None? <==> !Compilable(t, r.cond)
    ensures m.Some? ==> fresh(m.value) && fresh(m.value.w) && m.value.Valid() && m.value.n == t.n
    ensures m.Some? ==> m.value.Rows() == MatchedRows(u, r, t, counted.Rows())
  {
    hide Built, Sane, RowAt, Value;
    var mask := EvalRows(u, h, r.cond, t, 0, t.n, order);
    if mask.None? { return None; }
    var all := new Bitmap.Over(t.n, mask.value);
    var matched := all.Clone();
    matched.And(counted);
    forall i: nat | i < t.n ensures i in all.Rows() <==> Matches(u, r, RowAt(t, i)) { InRows(mask.value[..], t.n, i); }
    m := Some(matched);
  }

  predicate ChangedAt(a: Action, words: seq<Verdicts>, i: nat) {
    i / WORD < |words| &&
    var v := words[i / WORD];
    ChangeBit(a, v.allowed[i % WORD], v.blocked[i % WORD], v.reviewed[i % WORD])
  }

  ghost function ChangedOf(a: Action, words: seq<Verdicts>, rows: set<nat>): set<nat> {
    set i | i in rows && ChangedAt(a, words, i)
  }

  /** The rows among m's that a new rule with this action would decide otherwise than the recorded verdicts do, as
  set algebra on the three decision bitmaps. */
  method Changed(u: Unicode, rules: seq<Rule>, t: Table, words: seq<Verdicts>, a: Action, m: Bitmap)
    returns (changed: Bitmap)
    requires TableDecided(u, rules, t, words) && m.Valid() && m.n == t.n
    ensures fresh(changed) && fresh(changed.w) && changed.Valid() && changed.n == t.n
    ensures changed.Rows() == ChangedOf(a, words, m.Rows())
  {
    hide TailZero, DecidedAs, BitAt;
    SetsInside(u, rules, t, words);
    var allowed := Gather(words, t.n, (v: Verdicts) => v.allowed);
    var blocked := Gather(words, t.n, (v: Verdicts) => v.blocked);
    var reviewed := Gather(words, t.n, (v: Verdicts) => v.reviewed);
    changed := m.Clone();
    match a
    case Allow =>
      var stopped := blocked.Clone();
      stopped.Or(reviewed);
      changed.And(stopped);
    case Block =>
      changed.AndNot(allowed);
      changed.AndNot(blocked);
    case Review =>
      changed.AndNot(allowed);
      changed.AndNot(blocked);
      changed.AndNot(reviewed);
  }

  lemma SetsInside(u: Unicode, rules: seq<Rule>, t: Table, words: seq<Verdicts>)
    requires TableDecided(u, rules, t, words)
    ensures forall k: nat, j: nat ::
              k < |words| && j < WORD && (words[k].allowed[j] || words[k].blocked[j] || words[k].reviewed[j]) ==>
              WORD * k + j < t.n
  {
    hide DecidedAs;
    forall k: nat, j: nat | k < |words| && j < WORD
      && (words[k].allowed[j] || words[k].blocked[j] || words[k].reviewed[j])
      ensures WORD * k + j < t.n
    {
      assert WordDecided(u, rules, t, k, words[k]) && BitDecided(u, rules, t, k, words[k], j);
    }
  }

  lemma ChangedDiffer(u: Unicode, rules: seq<Rule>, t: Table, words: seq<Verdicts>, r: Rule, at: nat, i: nat)
    requires TableDecided(u, rules, t, words) && i < t.n && at <= |rules|
    ensures Matches(u, r, RowAt(t, i)) && ChangedAt(r.action, words, i) <==>
              ActionOf(u, Inserted(rules, at, r.(shadow := false)), RowAt(t, i)) != ActionOf(u, rules, RowAt(t, i))
  {
    hide Matches, ActionOf, Inserted, RowAt, DecidedAs;
    var k, j := i / WORD, i % WORD;
    assert WordDecided(u, rules, t, k, words[k]) && BitDecided(u, rules, t, k, words[k], j);
    ChangeBitMeans(u, rules, r, RowAt(t, i), words[k], j);
    ChangesAreExact(u, rules, r, RowAt(t, i), at);
  }

  // ---- which rules cover it ------------------------------------------------------------

  /** A rule in force beside the new one: the rows both match, and those of the new one's that it decides. */
  datatype Overlap = Overlap(index: nat, both: nat, decidedBy: nat)

  ghost function DecidedRows(u: Unicode, rules: seq<Rule>, t: Table, rows: set<nat>, r: nat): set<nat> {
    set i | i in rows && Deciding(u, rules, RowAt(t, i)) == Some(r)
  }

  /** The rows that one of the first n rules decides. */
  ghost function DecidedUpTo(u: Unicode, rules: seq<Rule>, t: Table, rows: set<nat>, n: nat): set<nat> {
    set i | i in rows && Deciding(u, rules, RowAt(t, i)).Some? && Deciding(u, rules, RowAt(t, i)).value < n
  }

  function Tally(counts: map<int, nat>, r: int): nat { if r in counts then counts[r] else 0 }

  /** How many rows each rule decides, as the report counts them. */
  method CountDecided(u: Unicode, rules: seq<Rule>, t: Table, words: seq<Verdicts>, m: Bitmap)
    returns (counts: map<int, nat>)
    requires TableDecided(u, rules, t, words) && m.Valid() && m.n == t.n
    ensures forall r: nat :: Tally(counts, r) == |DecidedRows(u, rules, t, m.Rows(), r)|
  {
    hide RowAt, Deciding, TailZero, BitAt, TableDecided, DecidedRows;
    counts := map[];
    var rows := m.List();
    ghost var seen: set<nat> := {};
    forall r: nat ensures |DecidedRows(u, rules, t, seen, r)| == 0 { NoRows(u, rules, t, r); }
    for k := 0 to |rows|
      invariant forall x: nat :: x in seen <==> x in rows[..k]
      invariant forall r: nat :: Tally(counts, r) == |DecidedRows(u, rules, t, seen, r)|
    {
      assert rows[k] in rows;
      RuleIs(u, rules, t, words, rows[k]);
      var r := words[rows[k] / WORD].rule[rows[k] % WORD];
      forall x: nat
        ensures |DecidedRows(u, rules, t, seen + {rows[k]}, x)|
                == |DecidedRows(u, rules, t, seen, x)| + if x == r then 1 else 0
      {
        OneMoreRow(u, rules, t, seen, rows[k], x);
      }
      if r >= 0 { counts := counts[r := Tally(counts, r) + 1]; }
      seen := seen + {rows[k]};
    }
    assert rows[..|rows|] == rows;
    assert seen == m.Rows();
  }

  lemma NoRows(u: Unicode, rules: seq<Rule>, t: Table, r: nat)
    ensures DecidedRows(u, rules, t, {}, r) == {}
  {}

  lemma RuleIs(u: Unicode, rules: seq<Rule>, t: Table, words: seq<Verdicts>, i: nat)
    requires TableDecided(u, rules, t, words) && i < t.n
    ensures |words| == Words(t.n) && |words[i / WORD].rule| == WORD
    ensures words[i / WORD].rule[i % WORD] == (match Deciding(u, rules, RowAt(t, i)) case None => -1 case Some(r) => r)
  {
    hide Deciding, RowAt, AnyFires, ActionOf;
    var k, j := i / WORD, i % WORD;
    assert WordDecided(u, rules, t, k, words[k]) && BitDecided(u, rules, t, k, words[k], j);
  }

  lemma OneMoreRow(u: Unicode, rules: seq<Rule>, t: Table, seen: set<nat>, i: nat, r: nat)
    requires i !in seen
    ensures |DecidedRows(u, rules, t, seen + {i}, r)| ==
              |DecidedRows(u, rules, t, seen, r)| + if Deciding(u, rules, RowAt(t, i)) == Some(r) then 1 else 0
  {
    hide Deciding, RowAt;
    var before, after := DecidedRows(u, rules, t, seen, r), DecidedRows(u, rules, t, seen + {i}, r);
    if Deciding(u, rules, RowAt(t, i)) == Some(r) {
      assert after == before + {i};
    } else {
      assert after == before;
    }
  }

  function TotalDecided(os: seq<Overlap>): nat {
    if os == [] then 0 else TotalDecided(os[..|os| - 1]) + os[|os| - 1].decidedBy
  }

  /** The live rules among the first n that match any of these rows, in source order. */
  ghost function OverlapsOf(u: Unicode, rules: seq<Rule>, t: Table, rows: set<nat>, n: nat): seq<Overlap>
    requires n <= |rules|
  {
    if n == 0 then []
    else
      var both := |MatchedRows(u, rules[n - 1], t, rows)|;
      OverlapsOf(u, rules, t, rows, n - 1)
      + if !rules[n - 1].shadow && both > 0 then [Overlap(n - 1, both, |DecidedRows(u, rules, t, rows, n - 1)|)] else []
  }

  /** A rule that decides a row is live and matches it, so the rows the overlaps decide are all the rows
  any rule decides. */
  lemma {:induction false} OverlapsDecide(u: Unicode, rules: seq<Rule>, t: Table, rows: set<nat>, n: nat)
    requires n <= |rules|
    ensures TotalDecided(OverlapsOf(u, rules, t, rows, n)) == |DecidedUpTo(u, rules, t, rows, n)|
    decreases n
  {
    hide RowAt, Deciding, Matches, MatchedRows;
    if n == 0 {
      assert DecidedUpTo(u, rules, t, rows, 0) == {};
    } else {
      OverlapsDecide(u, rules, t, rows, n - 1);
      OneMoreRule(u, rules, t, rows, n - 1);
      var before, after := OverlapsOf(u, rules, t, rows, n - 1), OverlapsOf(u, rules, t, rows, n);
      if after != before { assert after[..|after| - 1] == before; }
    }
  }

  lemma OneMoreRule(u: Unicode, rules: seq<Rule>, t: Table, rows: set<nat>, n: nat)
    requires n < |rules|
    ensures |DecidedUpTo(u, rules, t, rows, n + 1)| ==
              |DecidedUpTo(u, rules, t, rows, n)| + |DecidedRows(u, rules, t, rows, n)|
    ensures rules[n].shadow || MatchedRows(u, rules[n], t, rows) == {} ==> DecidedRows(u, rules, t, rows, n) == {}
  {
    hide RowAt, Deciding, Matches;
    assert DecidedUpTo(u, rules, t, rows, n + 1) ==
      DecidedUpTo(u, rules, t, rows, n) + DecidedRows(u, rules, t, rows, n);
    forall i | i in DecidedRows(u, rules, t, rows, n)
      ensures !rules[n].shadow && i in MatchedRows(u, rules[n], t, rows) {
      ActionIsRadars(u, rules, RowAt(t, i));
    }
  }

  // ---- sorting -------------------------------------------------------------------------

  /** What a list of overlaps is sorted by, the largest first. */
  datatype Key = ByBoth | ByDecided

  function KeyOf(key: Key, o: Overlap): nat { if key.ByBoth? then o.both else o.decidedBy }

  /** Into the first n of s, after those at least as large. */
  function Insert(key: Key, s: seq<Overlap>, n: nat, o: Overlap): seq<Overlap>
    requires n <= |s|
  {
    if n == 0 then [o]
    else if KeyOf(key, s[n - 1]) >= KeyOf(key, o) then s[..n] + [o]
    else Insert(key, s, n - 1, o) + [s[n - 1]]
  }

  /** The first n of s, those that tie in the order they came. */
  function StableSort(key: Key, s: seq<Overlap>, n: nat): seq<Overlap>
    requires n <= |s|
  {
    if n == 0 then []
    else
      var before := StableSort(key, s, n - 1);
      Insert(key, before, |before|, s[n - 1])
  }

  predicate Descending(key: Key, s: seq<Overlap>) {
    forall a, b :: 0 <= a < b < |s| ==> KeyOf(key, s[a]) >= KeyOf(key, s[b])
  }

  lemma {:induction false} InsertAdds(key: Key, s: seq<Overlap>, n: nat, o: Overlap)
    requires n <= |s|
    ensures multiset(Insert(key, s, n, o)) == multiset(s[..n]) + multiset{o}
    decreases n
  {
    hide KeyOf;
    if n == 0 || KeyOf(key, s[n - 1]) >= KeyOf(key, o) {
    } else {
      InsertAdds(key, s, n - 1, o);
      assert s[..n] == s[..n - 1] + [s[n - 1]];
    }
  }

  lemma {:induction false} InsertTotals(key: Key, s: seq<Overlap>, n: nat, o: Overlap)
    requires n <= |s|
    ensures TotalDecided(Insert(key, s, n, o)) == TotalDecided(s[..n]) + o.decidedBy
    decreases n
  {
    hide TotalDecided, KeyOf;
    if n == 0 || KeyOf(key, s[n - 1]) >= KeyOf(key, o) {
      TotalAppend(s[..n], o);
      assert s[..n] + [o] == Insert(key, s, n, o);
    } else {
      InsertTotals(key, s, n - 1, o);
      TotalAppend(Insert(key, s, n - 1, o), s[n - 1]);
      TotalAppend(s[..n - 1], s[n - 1]);
      assert s[..n] == s[..n - 1] + [s[n - 1]];
    }
  }

  lemma {:induction false} InsertSorts(key: Key, s: seq<Overlap>, n: nat, o: Overlap)
    requires n <= |s| && Descending(key, s)
    ensures Descending(key, Insert(key, s, n, o))
    decreases n
  {
    if n > 0 && KeyOf(key, s[n - 1]) < KeyOf(key, o) {
      InsertSorts(key, s, n - 1, o);
      var r := Insert(key, s, n - 1, o);
      forall k | 0 <= k < |r| ensures KeyOf(key, r[k]) >= KeyOf(key, s[n - 1]) { FromInsert(key, s, n - 1, o, k); }
    }
  }

  lemma FromInsert(key: Key, s: seq<Overlap>, n: nat, o: Overlap, k: nat)
    requires n <= |s| && k < |Insert(key, s, n, o)|
    ensures Insert(key, s, n, o)[k] in s[..n] || Insert(key, s, n, o)[k] == o
  {
    InsertAdds(key, s, n, o);
    hide Insert;
    assert Insert(key, s, n, o)[k] in multiset(Insert(key, s, n, o));
  }

  lemma TotalAppend(s: seq<Overlap>, o: Overlap)
    ensures TotalDecided(s + [o]) == TotalDecided(s) + o.decidedBy
  {
    assert (s + [o])[..|s|] == s;
  }

  /** Sorting keeps every overlap and puts the largest first. */
  lemma {:induction false} SortKeeps(key: Key, s: seq<Overlap>, n: nat)
    requires n <= |s|
    ensures var r := StableSort(key, s, n);
            Descending(key, r) && multiset(r) == multiset(s[..n]) && TotalDecided(r) == TotalDecided(s[..n])
    decreases n
  {
    hide Insert, Descending, TotalDecided;
    if n == 0 {
      NothingToSort(key);
    } else {
      SortKeeps(key, s, n - 1);
      var before := StableSort(key, s, n - 1);
      InsertAdds(key, before, |before|, s[n - 1]);
      InsertTotals(key, before, |before|, s[n - 1]);
      InsertSorts(key, before, |before|, s[n - 1]);
      TotalAppend(s[..n - 1], s[n - 1]);
      assert before[..|before|] == before && s[..n] == s[..n - 1] + [s[n - 1]];
    }
  }

  lemma NothingToSort(key: Key)
    ensures Descending(key, []) && TotalDecided([]) == 0
  {}

  /** Those among the first n that decide any of the rows today. */
  function Deciders(s: seq<Overlap>, n: nat): seq<Overlap>
    requires n <= |s|
  {
    if n == 0 then []
    else if s[n - 1].decidedBy > 0 then Deciders(s, n - 1) + [s[n - 1]]
    else Deciders(s, n - 1)
  }

  lemma {:induction false} DecidersTotal(s: seq<Overlap>, n: nat)
    requires n <= |s|
    ensures TotalDecided(Deciders(s, n)) == TotalDecided(s[..n])
    decreases n
  {
    hide TotalDecided;
    if n == 0 {
      assert s[..n] == [];
    } else {
      DecidersTotal(s, n - 1);
      TotalAppend(Deciders(s, n - 1), s[n - 1]);
      TotalAppend(s[..n - 1], s[n - 1]);
      assert s[..n] == s[..n - 1] + [s[n - 1]];
    }
  }

  // ---- a report ------------------------------------------------------------------------

  /** Each rule's mask holds its rows of the table. */
  ghost predicate MasksAre(u: Unicode, rules: seq<Rule>, t: Table, masks: seq<array<Word>>)
    reads set r | 0 <= r < |masks| :: masks[r]
  {
    |masks| == |rules| && forall r :: 0 <= r < |rules| ==> MaskIs(u, rules[r], t, masks[r][..])
  }

  method CountBoth(u: Unicode, r: Rule, t: Table, mask: array<Word>, m: Bitmap) returns (both: nat)
    requires MaskIs(u, r, t, mask[..]) && Sane(u) && m.Valid() && m.n == t.n
    ensures both == |MatchedRows(u, r, t, m.Rows())|
  {
    hide Sane, RowAt, Value;
    var all := new Bitmap.Over(t.n, mask);
    both := m.AndCount(all);
    forall i: nat | i < t.n ensures i in all.Rows() <==> Matches(u, r, RowAt(t, i)) { InRows(mask[..], t.n, i); }
    assert m.Rows() * all.Rows() == MatchedRows(u, r, t, m.Rows());
  }

  /** The rules in force that share rows with the proposed rule, most shared first. */
  method Overlaps(u: Unicode, rules: seq<Rule>, t: Table, words: seq<Verdicts>, masks: seq<array<Word>>, m: Bitmap)
    returns (os: seq<Overlap>)
    requires TableDecided(u, rules, t, words) && MasksAre(u, rules, t, masks) && Sane(u) && m.Valid() && m.n == t.n
    ensures var all := OverlapsOf(u, rules, t, m.Rows(), |rules|);
            os == StableSort(ByBoth, all, |all|)
  {
    hide TableDecided, Sane, MaskIs, MatchedRows, DecidedRows;
    var counts := CountDecided(u, rules, t, words, m);
    os := [];
    for r := 0 to |rules|
      invariant os == OverlapsOf(u, rules, t, m.Rows(), r)
    {
      if !rules[r].shadow {
        var both := CountBoth(u, rules[r], t, masks[r], m);
        if both > 0 { os := os + [Overlap(r, both, Tally(counts, r))]; }
      }
    }
    os := StableSort(ByBoth, os, |os|);
  }

  /** When a block or review rule changes nothing, every row it matches is decided already. */
  lemma UnchangedDecided(u: Unicode, rules: seq<Rule>, t: Table, words: seq<Verdicts>, a: Action, rows: set<nat>)
    requires TableDecided(u, rules, t, words) && a != Allow
    requires (forall i :: i in rows ==> i < t.n) && ChangedOf(a, words, rows) == {}
    ensures DecidedUpTo(u, rules, t, rows, |rules|) == rows
  {
    hide Deciding, RowAt;
    forall i | i in rows ensures i in DecidedUpTo(u, rules, t, rows, |rules|) {
      assert i !in ChangedOf(a, words, rows);
      var k, j := i / WORD, i % WORD;
      assert WordDecided(u, rules, t, k, words[k]) && BitDecided(u, rules, t, k, words[k], j);
      ActionIsRadars(u, rules, RowAt(t, i));
      NoneDecides(u, rules, RowAt(t, i));
    }
  }

  /** Of a rule that matches rows but changes none, the rules that decide them today. */
  method Cover(u: Unicode, rules: seq<Rule>, t: Table, words: seq<Verdicts>, a: Action, os: seq<Overlap>, m: Bitmap,
      changed: Bitmap)
    returns (unreachable: bool, covered: seq<Overlap>)
    requires TableDecided(u, rules, t, words) && m.Valid() && m.n == t.n && changed.Valid()
    requires changed.Rows() == ChangedOf(a, words, m.Rows())
    requires var all := OverlapsOf(u, rules, t, m.Rows(), |rules|); os == StableSort(ByBoth, all, |all|)
    ensures unreachable <==> m.Rows() != {} && changed.Rows() == {}
    ensures unreachable ==> TotalDecided(covered) == |DecidedUpTo(u, rules, t, m.Rows(), |rules|)|
    ensures unreachable && a != Allow ==> TotalDecided(covered) == |m.Rows()|
  {
    hide TableDecided, ChangedAt, DecidedUpTo, OverlapsOf, StableSort, Deciders, TotalDecided, TailZero, BitAt;
    unreachable, covered := false, [];
    var n := m.Count();
    var any := changed.Any();
    if n > 0 && !any {
      unreachable := true;
      var some := Deciders(os, |os|);
      covered := StableSort(ByDecided, some, |some|);
      ghost var all := OverlapsOf(u, rules, t, m.Rows(), |rules|);
      OverlapsDecide(u, rules, t, m.Rows(), |rules|);
      SortKeeps(ByBoth, all, |all|);
      DecidersTotal(os, |os|);
      SortKeeps(ByDecided, some, |some|);
      assert all[..|all|] == all && os[..|os|] == os && some[..|some|] == some;
      if a != Allow {
        UnchangedDecided(u, rules, t, words, a, m.Rows());
      }
    }
  }

  datatype Report = Report(
    matched: Bitmap, changed: Bitmap, overlaps: seq<Overlap>, unreachable: bool, covered: seq<Overlap>)

  /** The report on a rule not yet in force, over the counted rows: what it matches; what its insertion would change,
  the same at every position; what it shares with each rule in force; and, should a blocking or reviewing rule
  change nothing it matches, a cover whose decided numbers sum to its matches. */
  method Run(u: Unicode, h: Hasher, rules: seq<Rule>, t: Table, words: seq<Verdicts>, masks: seq<array<Word>>, r: Rule,
      counted: Bitmap, order: seq<nat>)
    returns (report: Option<Report>)
    requires Built(t) && Sane(u) && TableDecided(u, rules, t, words) && MasksAre(u, rules, t, masks)
    requires counted.Valid() && counted.n == t.n && forall k: nat :: CHUNK * k < t.n <==> k in order
    ensures report.None? <==> !Compilable(t, r.cond)
    ensures report.Some? ==> report.value.matched.Rows() == MatchedRows(u, r, t, counted.Rows())
    ensures report.Some? ==> forall at: nat :: at <= |rules| ==>
              report.value.changed.Rows() == Differing(u, rules, r, at, t, counted.Rows())
    ensures report.Some? ==> var all := OverlapsOf(u, rules, t, report.value.matched.Rows(), |rules|);
                             report.value.overlaps == StableSort(ByBoth, all, |all|)
    ensures report.Some? ==>
              (report.value.unreachable <==> report.value.matched.Rows() != {} && report.value.changed.Rows() == {})
    ensures report.Some? && report.value.unreachable && r.action != Allow ==>
              TotalDecided(report.value.covered) == |report.value.matched.Rows()|
  {
    hide Built, Sane, TableDecided, MasksAre, OverlapsOf, StableSort, TotalDecided, Compilable, RowAt, Matches;
    hide ActionOf, Inserted, TailZero, ChangeBit;
    var m := Match(u, h, r, t, counted, order);
    if m.None? { return None; }
    var changed := Changed(u, rules, t, words, r.action, m.value);
    forall at: nat | at <= |rules| ensures changed.Rows() == Differing(u, rules, r, at, t, counted.Rows()) {
      forall i | i in counted.Rows()
        ensures i in changed.Rows() <==> i in Differing(u, rules, r, at, t, counted.Rows()) {
        ChangedDiffer(u, rules, t, words, r, at, i);
      }
    }
    var os := Overlaps(u, rules, t, words, masks, m.value);
    var unreachable, covered := Cover(u, rules, t, words, r.action, os, m.value, changed);
    report := Some(Report(m.value, changed, os, unreachable, covered));
  }
}
