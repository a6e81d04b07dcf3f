/** Deciding every row of a table with bitmaps (internal/backtest/ruleset.go). */
module Decisions {
  import opened Domain
  import opened Rows
  import opened Text
  import opened Language
  import opened Columns
  import opened VectorCompiler
  import opened VectorEval
  import opened EvalMany
  import opened RuleSets
  import opened Bitmaps
  import Closures

  /** Indices of the live rules, grouped so that an earlier group's action wins over a later one's. */
  function DecisionOrder(rules: seq<Rule>): seq<nat> {
    Group(rules, Allow, |rules|) + Group(rules, Block, |rules|) + Group(rules, Review, |rules|)
  }

  /** The decisions on 64 rows: which no rule has decided yet, which are allowed, blocked and reviewed
  by a rule, and per row the action and the deciding rule, -1 for none. */
  datatype Verdicts = Verdicts(
    open: Word, allowed: Word, blocked: Word, reviewed: Word, action: seq<Action>, rule: seq<int>)

  /** The first of the first q rules in decision order whose mask has row j. */
  function FirstBit(ord: seq<nat>, q: nat, masks: seq<Word>, j: nat): Option<nat>
    requires q <= |ord| && j < WORD
  {
    if q == 0 then None
    else
      var f := FirstBit(ord, q - 1, masks, j);
      if f.Some? then f else if ord[q - 1] < |masks| && masks[ord[q - 1]][j] then Some(ord[q - 1]) else None
  }

  /** What is recorded of a row the rule f decides, or that no rule decides. */
  predicate Recorded(rules: seq<Rule>, f: Option<nat>, v: Verdicts, j: nat)
    requires j < WORD && |v.action| == |v.rule| == WORD
  {
    match f
    case None => v.action[j] == Allow && v.rule[j] == -1 && !v.allowed[j] && !v.blocked[j] && !v.reviewed[j]
    case Some(i) =>
      && i < |rules| && v.action[j] == rules[i].action && v.rule[j] == i
      && v.allowed[j] == v.action[j].Allow? && v.blocked[j] == v.action[j].Block?
      && v.reviewed[j] == v.action[j].Review?
  }

  /** After q rules: the rows present are recorded under the first that matched, or still open. */
  ghost predicate AfterRules(rules: seq<Rule>, ord: seq<nat>, q: nat, masks: seq<Word>, present: Word, v: Verdicts)
    requires q <= |ord|
  {
    && |v.action| == |v.rule| == WORD
    && forall j: nat :: j < WORD ==>
         && Recorded(rules, if present[j] then FirstBit(ord, q, masks, j) else None, v, j)
         && v.open[j] == (present[j] && FirstBit(ord, q, masks, j).None?)
  }

  function Take(v: Verdicts, newly: Word, i: nat, a: Action): Verdicts
    requires |v.action| == |v.rule| == WORD
  {
    Verdicts(
      AndNotW(v.open, newly),
      if a.Allow? then OrW(v.allowed, newly) else v.allowed,
      if a.Block? then OrW(v.blocked, newly) else v.blocked,
      if a.Review? then OrW(v.reviewed, newly) else v.reviewed,
      seq(WORD, j requires 0 <= j < WORD => if newly[j] then a else v.action[j]),
      seq(WORD, j requires 0 <= j < WORD => if newly[j] then i else v.rule[j]))
  }

  lemma TakeDecides(rules: seq<Rule>, ord: seq<nat>, q: nat, masks: seq<Word>, present: Word, was: Verdicts,
      newly: Word)
    requires q < |ord| && ord[q] < |rules| == |masks| && AfterRules(rules, ord, q, masks, present, was)
    requires newly == AndW(masks[ord[q]], was.open)
    ensures |was.action| == |was.rule| == WORD
    ensures AfterRules(rules, ord, q + 1, masks, present, if newly != ZEROS
              then Take(was, newly, ord[q], rules[ord[q]].action) else was)
  {
    var v := if newly != ZEROS then Take(was, newly, ord[q], rules[ord[q]].action) else was;
    forall j: nat | j < WORD
      ensures Recorded(rules, if present[j] then FirstBit(ord, q + 1, masks, j) else None, v, j)
      ensures v.open[j] == (present[j] && FirstBit(ord, q + 1, masks, j).None?)
    {
      assert newly[j] == (masks[ord[q]][j] && was.open[j]);
      if newly == ZEROS { assert !newly[j]; }
    }
  }

  // ---- what is decided -----------------------------------------------------------------

  /** Row j of this word is decided as the online evaluator decides it, and stands in exactly the set of
  its action: an allow rule matched it, or a block rule and no allow rule, or a review rule and neither. */
  ghost predicate DecidedAs(u: Unicode, rules: seq<Rule>, row: Row, v: Verdicts, j: nat)
    requires j < WORD && |v.action| == |v.rule| == WORD
  {
    && v.action[j] == ActionOf(u, rules, row)
    && v.rule[j] == (match Deciding(u, rules, row) case None => -1 case Some(i) => i)
    && v.allowed[j] == AnyFires(u, rules, Allow, row)
    && v.blocked[j] == (AnyFires(u, rules, Block, row) && !v.allowed[j])
    && v.reviewed[j] == (AnyFires(u, rules, Review, row) && !v.allowed[j] && !v.blocked[j])
  }

  lemma {:induction false} FirstBitSplit(x: seq<nat>, y: seq<nat>, q: nat, masks: seq<Word>, j: nat)
    requires q <= |y| && j < WORD
    ensures FirstBit(x + y, |x| + q, masks, j) ==
              if FirstBit(x, |x|, masks, j).Some? then FirstBit(x, |x|, masks, j) else FirstBit(y, q, masks, j)
    decreases q
  {
    if q == 0 {
      FirstBitPrefix(x, x + y, |x|, masks, j);
    } else {
      FirstBitSplit(x, y, q - 1, masks, j);
    }
  }

  lemma {:induction false} FirstBitPrefix(x: seq<nat>, more: seq<nat>, q: nat, masks: seq<Word>, j: nat)
    requires x <= more && q <= |x| && j < WORD
    ensures FirstBit(more, q, masks, j) == FirstBit(x, q, masks, j)
    decreases q
  {
    if q > 0 { FirstBitPrefix(x, more, q - 1, masks, j); }
  }

  ghost predicate MasksMatch(u: Unicode, rules: seq<Rule>, row: Row, masks: seq<Word>, j: nat)
    requires j < WORD
  {
    |masks| == |rules| && forall i: nat :: i < |rules| ==> masks[i][j] == Matches(u, rules[i], row)
  }

  lemma {:induction false} GroupFirst(u: Unicode, rules: seq<Rule>, a: Action, row: Row, masks: seq<Word>, j: nat,
      n: nat)
    requires j < WORD && n <= |rules| && MasksMatch(u, rules, row, masks, j)
    ensures var f := FirstBit(Group(rules, a, n), |Group(rules, a, n)|, masks, j);
            if f.None? then forall k: nat :: k < n ==> !Fires(u, rules[k], a, row)
            else && f.value < n && Fires(u, rules[f.value], a, row)
                 && forall k: nat :: k < f.value ==> !Fires(u, rules[k], a, row)
    decreases n
  {
    hide Matches;
    if n > 0 {
      GroupFirst(u, rules, a, row, masks, j, n - 1);
      FirstBitPrefix(Group(rules, a, n - 1), Group(rules, a, n), |Group(rules, a, n - 1)|, masks, j);
    }
  }

  /** Deciding in order attributes each row to the rule the online evaluator reports. */
  lemma FirstIsDeciding(u: Unicode, rules: seq<Rule>, row: Row, masks: seq<Word>, j: nat)
    requires j < WORD && MasksMatch(u, rules, row, masks, j)
    ensures FirstBit(DecisionOrder(rules), |DecisionOrder(rules)|, masks, j) == Deciding(u, rules, row)
  {
    var al, bl, re := Group(rules, Allow, |rules|), Group(rules, Block, |rules|), Group(rules, Review, |rules|);
    FirstBitSplit(al + bl, re, |re|, masks, j);
    FirstBitSplit(al, bl, |bl|, masks, j);
    GroupIsFirst(u, rules, Allow, row, masks, j);
    GroupIsFirst(u, rules, Block, row, masks, j);
    GroupIsFirst(u, rules, Review, row, masks, j);
    hide FirstFrom, FirstBit, Group, MasksMatch;
    assert |al + bl| == |al| + |bl|;
  }

  lemma GroupIsFirst(u: Unicode, rules: seq<Rule>, a: Action, row: Row, masks: seq<Word>, j: nat)
    requires j < WORD && MasksMatch(u, rules, row, masks, j)
    ensures FirstBit(Group(rules, a, |rules|), |Group(rules, a, |rules|)|, masks, j) == FirstFrom(u, rules, a, row, 0)
  {
    GroupFirst(u, rules, a, row, masks, j, |rules|);
    FirstFires(u, rules, a, row, 0);
    hide Fires, FirstBit, Group, FirstFrom, MasksMatch;
  }

  /** After every rule, a row present is decided as the online evaluator decides it. */
  lemma AllRulesDecide(u: Unicode, rules: seq<Rule>, row: Row, masks: seq<Word>, present: Word, v: Verdicts, j: nat)
    requires j < WORD && present[j] && MasksMatch(u, rules, row, masks, j)
    requires AfterRules(rules, DecisionOrder(rules), |DecisionOrder(rules)|, masks, present, v)
    ensures DecidedAs(u, rules, row, v, j)
  {
    hide Deciding, FirstBit, DecisionOrder, MasksMatch, Fires;
    FirstIsDeciding(u, rules, row, masks, j);
    ActionIsRadars(u, rules, row);
    assert Recorded(rules, Deciding(u, rules, row), v, j);
    DecidedFires(u, rules, row);
  }

  lemma DecidedFires(u: Unicode, rules: seq<Rule>, row: Row)
    ensures var d := Deciding(u, rules, row);
            d.Some? ==> d.value < |rules| && AnyFires(u, rules, rules[d.value].action, row)
  {
    hide Fires, Deciding;
    ActionIsRadars(u, rules, row);
  }

  // ---- a whole table -----------------------------------------------------------------

  /** Bit j of word k: decided as the online evaluator decides its row, and in no set past the table. */
  ghost predicate BitDecided(u: Unicode, rules: seq<Rule>, t: Table, k: nat, v: Verdicts, j: nat)
    requires j < WORD && |v.action| == |v.rule| == WORD
  {
    if WORD * k + j < t.n then DecidedAs(u, rules, RowAt(t, WORD * k + j), v, j)
    else !v.allowed[j] && !v.blocked[j] && !v.reviewed[j]
  }

  ghost predicate WordDecided(u: Unicode, rules: seq<Rule>, t: Table, k: nat, v: Verdicts) {
    && |v.action| == |v.rule| == WORD
    && forall j: nat :: j < WORD ==> BitDecided(u, rules, t, k, v, j)
  }

  /** Row j of word k has the rule and the action that decide it, and is in the bitmap of that action if a rule did. */
  ghost predicate RowDecided(u: Unicode, rules: seq<Rule>, t: Table, k: nat, v: Verdicts, j: nat)
    requires j < WORD && |v.action| == |v.rule| == WORD
  {
    WORD * k + j < t.n ==>
      && Decides(u, rules, RowAt(t, WORD * k + j), if v.rule[j] < 0 then None else Some(v.rule[j]), v.action[j])
      && v.allowed[j] == (v.rule[j] >= 0 && v.action[j] == Allow)
      && v.blocked[j] == (v.rule[j] >= 0 && v.action[j] == Block)
      && v.reviewed[j] == (v.rule[j] >= 0 && v.action[j] == Review)
  }

  lemma DecidedIsRow(u: Unicode, rules: seq<Rule>, t: Table, k: nat, v: Verdicts, j: nat)
    requires j < WORD && |v.action| == |v.rule| == WORD
    requires WORD * k + j < t.n ==> DecidedAs(u, rules, RowAt(t, WORD * k + j), v, j)
    ensures RowDecided(u, rules, t, k, v, j)
  {
    var row := RowAt(t, WORD * k + j);
    RadarsOrder(u, rules, row);
    ActionIsRadars(u, rules, row);
    hide Fires, Decides, Deciding;
    DecidedFires(u, rules, row);
    hide AnyFires, RowAt;
  }

  lemma WordIsRows(u: Unicode, rules: seq<Rule>, t: Table, k: nat, v: Verdicts)
    requires WordDecided(u, rules, t, k, v)
    ensures |v.action| == |v.rule| == WORD && forall j: nat :: j < WORD ==> RowDecided(u, rules, t, k, v, j)
  {
    hide RowAt, DecidedAs, RowDecided;
    forall j: nat | j < WORD ensures RowDecided(u, rules, t, k, v, j) {
      assert BitDecided(u, rules, t, k, v, j);
      DecidedIsRow(u, rules, t, k, v, j);
    }
  }

  /** Every rule compiled against the table. */
  ghost predicate Compiled(u: Unicode, rules: seq<Rule>, t: Table, progs: seq<Program>) {
    && |progs| == |rules|
    && forall r, i: nat :: 0 <= r < |rules| && i < t.n ==>
         BitOf(t, progs[r].root, i) == Matches(u, rules[r], RowAt(t, i))
  }

  /** The rows of word k of a chunk of n rows. */
  function Present(n: nat, k: nat): Word { if k + 1 < Words(n) then seq(WORD, j => true) else TailMask(n) }

  lemma PresentMeans(n: nat, k: nat, j: nat)
    requires k < Words(n) && j < WORD
    ensures Present(n, k)[j] == (WORD * k + j < n)
  {}

  const BLANK := Verdicts(ZEROS, ZEROS, ZEROS, ZEROS, seq(WORD, j => Allow), seq(WORD, j => -1))

  /** Word k of every rule's mask. */
  function Column(masks: seq<seq<Word>>, k: nat): seq<Word> {
    seq(|masks|, r requires 0 <= r < |masks| => Lookup<Word>(masks[r], k, ZEROS))
  }

  /** Decides a chunk of n rows rule by rule: a rule gets what it matches among the rows that no earlier one got. */
  method DecideChunk(rules: seq<Rule>, ord: seq<nat>, masks: seq<seq<Word>>, n: nat) returns (vs: seq<Verdicts>)
    requires |masks| == |rules| && forall r :: 0 <= r < |masks| ==> |masks[r]| == Words(n)
    requires forall q :: 0 <= q < |ord| ==> ord[q] < |rules|
    ensures |vs| == Words(n)
    ensures forall k: nat :: k < |vs| ==> AfterRules(rules, ord, |ord|, Column(masks, k), Present(n, k), vs[k])
  {
    hide AfterRules, Present;
    vs := seq(Words(n), k requires k >= 0 => BLANK.(open := Present(n, k)));
    forall k: nat | k < |vs| ensures AfterRules(rules, ord, 0, Column(masks, k), Present(n, k), vs[k]) {
      NoneYet(rules, ord, Column(masks, k), Present(n, k));
    }
    for q := 0 to |ord|
      invariant |vs| == Words(n)
      invariant forall k: nat :: k < |vs| ==> AfterRules(rules, ord, q, Column(masks, k), Present(n, k), vs[k])
    {
      var i := ord[q];
      for k := 0 to |vs|
        invariant |vs| == Words(n)
        invariant forall l: nat :: l < k ==> AfterRules(rules, ord, q + 1, Column(masks, l), Present(n, l), vs[l])
        invariant forall l: nat :: k <= l < |vs| ==> AfterRules(rules, ord, q, Column(masks, l), Present(n, l), vs[l])
      {
        var newly := AndW(masks[i][k], vs[k].open);
        ghost var was := vs[k];
        assert AfterRules(rules, ord, q, Column(masks, k), Present(n, k), was);
        TakeDecides(rules, ord, q, Column(masks, k), Present(n, k), was, newly);
        if newly != ZEROS { vs := vs[k := Take(vs[k], newly, i, rules[i].action)]; }
      }
    }
  }

  lemma NoneYet(rules: seq<Rule>, ord: seq<nat>, masks: seq<Word>, present: Word)
    ensures AfterRules(rules, ord, 0, masks, present, BLANK.(open := present))
  {}

  /** Each rule's mask over the chunk's words. */
  method Region(out: seq<array<Word>>, from: nat, len: nat) returns (masks: seq<seq<Word>>)
    requires forall r :: 0 <= r < |out| ==> from + len <= out[r].Length
    ensures |masks| == |out| && forall r :: 0 <= r < |out| ==> masks[r] == out[r][from..from + len]
  {
    masks := [];
    for r := 0 to |out|
      invariant |masks| == r && forall l :: 0 <= l < r ==> masks[l] == out[l][from..from + len]
    {
      masks := masks + [out[r][from..from + len]];
    }
  }

  /** The masks of the chunks done hold, for every rule, the rows of the table its condition holds on. */
  ghost predicate Filled(t: Table, progs: seq<Program>, done: set<nat>, out: seq<array<Word>>)
    reads set r | 0 <= r < |out| :: out[r]
  {
    |out| == |progs| && forall r :: 0 <= r < |out| ==> Partial(t, progs[r].root, 0, t.n, done, out[r][..])
  }

  lemma ColumnMatches(u: Unicode, rules: seq<Rule>, t: Table, progs: seq<Program>, done: set<nat>,
      out: seq<array<Word>>, masks: seq<seq<Word>>, from: nat, k: nat, j: nat)
    requires Compiled(u, rules, t, progs) && Filled(t, progs, done, out) && |masks| == |out|
    requires forall r :: 0 <= r < |out| ==>
              from + k < out[r].Length && k < |masks[r]| && masks[r][k] == out[r][from + k]
    requires j < WORD && WORD * (from + k) + j < t.n && ChunkIn(from + k, 0, done)
    ensures MasksMatch(u, rules, RowAt(t, WORD * (from + k) + j), Column(masks, k), j)
  {
    hide BitOf, Matches, RowAt, ChunkIn;
    var i := WORD * (from + k) + j;
    forall r: nat | r < |rules| ensures Column(masks, k)[r][j] == Matches(u, rules[r], RowAt(t, i)) {
      assert Partial(t, progs[r].root, 0, t.n, done, out[r][..]);
      assert out[r][..][from + k] == masks[r][k];
      assert BitOf(t, progs[r].root, i) == Matches(u, rules[r], RowAt(t, i));
    }
  }

  /** Where a chunk's words stand, and that its rows are the table's. */
  lemma ChunkWords(n: nat, c: nat, len: nat, k: nat)
    requires CHUNK * c < n && len == (if n - CHUNK * c < CHUNK then n - CHUNK * c else CHUNK) && k < Words(len)
    ensures (CHUNK * c) / WORD == CHUNK / WORD * c && WORD * (CHUNK / WORD * c + k) / CHUNK == c
    ensures CHUNK / WORD * c + Words(len) <= Words(n)
  {}

  lemma ChunkRows(n: nat, c: nat, len: nat, k: nat, j: nat)
    requires CHUNK * c < n && len == (if n - CHUNK * c < CHUNK then n - CHUNK * c else CHUNK) && k < Words(len)
    requires j < WORD
    ensures WORD * k + j < len <==> WORD * (CHUNK / WORD * c + k) + j < n
  {}

  lemma ChunkDecided(u: Unicode, rules: seq<Rule>, t: Table, progs: seq<Program>, done: set<nat>, out: seq<array<Word>>,
      masks: seq<seq<Word>>, c: nat, len: nat, k: nat, v: Verdicts)
    requires Compiled(u, rules, t, progs) && Filled(t, progs, done, out) && |masks| == |out| && c in done
    requires CHUNK * c < t.n && len == (if t.n - CHUNK * c < CHUNK then t.n - CHUNK * c else CHUNK) && k < Words(len)
    requires forall r :: 0 <= r < |out| ==>
               && CHUNK / WORD * c + k < out[r].Length && k < |masks[r]| && masks[r][k] == out[r][CHUNK / WORD * c + k]
    requires AfterRules(rules, DecisionOrder(rules), |DecisionOrder(rules)|, Column(masks, k), Present(len, k), v)
    ensures WordDecided(u, rules, t, CHUNK / WORD * c + k, v)
  {
    hide DecidedAs, DecisionOrder, Column, Compiled, Filled, RowAt, Present, MasksMatch, FirstBit, BitOf;
    ChunkWords(t.n, c, len, k);
    var w := CHUNK / WORD * c + k;
    forall j: nat | j < WORD
      ensures BitDecided(u, rules, t, w, v, j)
    {
      PresentMeans(len, k, j);
      ChunkRows(t.n, c, len, k, j);
      assert Recorded(rules, if Present(len, k)[j]
        then FirstBit(DecisionOrder(rules), |DecisionOrder(rules)|, Column(masks, k), j) else None, v, j);
      if WORD * w + j < t.n {
        ColumnMatches(u, rules, t, progs, done, out, masks, CHUNK / WORD * c, k, j);
        AllRulesDecide(u, rules, RowAt(t, WORD * w + j), Column(masks, k), Present(len, k), v, j);
      }
    }
  }

  /** The outcome over a table: a mask of matching rows for each rule, and a record of decisions for each word. */
  datatype Decisions = Decisions(masks: seq<array<Word>>, words: array<Verdicts>)

  /** Compiles every rule, shadow rules included; one the table cannot serve is an error. */
  method CompileRuleSet(u: Unicode, h: Hasher, rules: seq<Rule>, t: Table) returns (progs: Option<seq<Program>>)
    requires Built(t) && Sane(u)
    ensures progs.None? <==> exists r :: 0 <= r < |rules| && !Compilable(t, rules[r].cond)
    ensures progs.Some? ==> |progs.value| == |rules| && Compiled(u, rules, t, progs.value)
    ensures progs.Some? ==> forall r :: 0 <= r < |progs.value| ==> ProgramFits(progs.value[r])
  {
    hide Built, Sane, BitOf, RowAt, ProgramFits, Compilable, Value;
    var done := [];
    for r := 0 to |rules|
      invariant Compiled(u, rules[..r], t, done)
      invariant forall l :: 0 <= l < r ==> Compilable(t, rules[l].cond) && ProgramFits(done[l])
    {
      var p := CompileVector(u, h, rules[r].cond, t);
      if p.None? { return None; }
      done := done + [p.value];
      forall l, i: nat | 0 <= l < r + 1 && i < t.n
        ensures BitOf(t, done[l].root, i) == Matches(u, rules[..r + 1][l], RowAt(t, i))
      {
        if l < r { assert rules[..r + 1][l] == rules[..r][l]; }
      }
    }
    assert rules[..|rules|] == rules;
    progs := Some(done);
  }

  method Store(words: array<Verdicts>, from: nat, vs: seq<Verdicts>)
    requires from + |vs| <= words.Length
    modifies words
    ensures forall w: nat :: w < words.Length ==>
              words[w] == if from <= w < from + |vs| then vs[w - from] else old(words[w])
  {
    for k := 0 to |vs|
      invariant forall w: nat :: w < words.Length ==>
                words[w] == if from <= w < from + k then vs[w - from] else old(words[w])
    {
      words[from + k] := vs[k];
    }
  }

  lemma InChunk(n: nat, c: nat, len: nat, done: set<nat>, w: nat)
    requires CHUNK * c < n && len == (if n - CHUNK * c < CHUNK then n - CHUNK * c else CHUNK) && w < Words(n)
    ensures ChunkIn(w, 0, done + {c}) <==> ChunkIn(w, 0, done) || CHUNK / WORD * c <= w < CHUNK / WORD * c + Words(len)
  {}

  /** One worker's turn: every rule is run over a chunk, which is then decided. */
  method RunAndDecide(u: Unicode, rules: seq<Rule>, t: Table, progs: seq<Program>, masks: seq<array<Word>>, s: Scratch,
      words: array<Verdicts>, c: nat, ghost done: set<nat>)
    requires Compiled(u, rules, t, progs) && Filled(t, progs, done, masks) && CHUNK * c < t.n
    requires Separate(s) && Apart(masks, s, Words(t.n)) && words.Length == Words(t.n) && words !in FreshOf(s, masks)
    requires forall r :: 0 <= r < |progs| ==> ProgramFits(progs[r]) && progs[r].nf <= |s.f| && progs[r].nw <= |s.w|
    requires forall w: nat :: w < words.Length && ChunkIn(w, 0, done) ==> WordDecided(u, rules, t, w, words[w])
    modifies FreshOf(s, masks), words
    ensures Filled(t, progs, done + {c}, masks)
    ensures forall w: nat :: w < words.Length && ChunkIn(w, 0, done + {c}) ==> WordDecided(u, rules, t, w, words[w])
  {
    hide Partial, WordDecided, AfterRules, ProgramFits, Separate, Column, DecisionOrder, Matches, BitOf;
    RunChunk(t, progs, masks, s, 0, t.n, c, done);
    assert Filled(t, progs, done + {c}, masks);
    var len := if t.n - CHUNK * c < CHUNK then t.n - CHUNK * c else CHUNK;
    var from := CHUNK / WORD * c;
    ChunkWords(t.n, c, len, 0);
    var region := Region(masks, from, Words(len));
    OrderIn(rules);
    var vs := DecideChunk(rules, DecisionOrder(rules), region, len);
    forall k: nat | k < |vs| ensures WordDecided(u, rules, t, from + k, vs[k]) {
      ChunkDecided(u, rules, t, progs, done + {c}, masks, region, c, len, k, vs[k]);
    }
    Store(words, from, vs);
    forall w: nat | w < words.Length && ChunkIn(w, 0, done + {c}) ensures WordDecided(u, rules, t, w, words[w]) {
      InChunk(t.n, c, len, done, w);
      if from <= w < from + |vs| { assert WordDecided(u, rules, t, from + (w - from), vs[w - from]); }
    }
  }

  lemma OrderIn(rules: seq<Rule>)
    ensures forall q :: 0 <= q < |DecisionOrder(rules)| ==> DecisionOrder(rules)[q] < |rules|
  {
    GroupHas(rules, Allow, |rules|);
    GroupHas(rules, Block, |rules|);
    GroupHas(rules, Review, |rules|);
    hide Group;
  }

  /** A rule's mask holds exactly the table's rows its condition is TRUE on, which are those the rule's
  closure answers yes on. */
  ghost predicate MaskIs(u: Unicode, r: Rule, t: Table, ws: seq<Word>) {
    |ws| == Words(t.n) && forall k: nat, j: nat :: k < |ws| && j < WORD ==>
      && ws[k][j] == (WORD * k + j < t.n && Matches(u, r, RowAt(t, WORD * k + j)))
      && ws[k][j] == (WORD * k + j < t.n && Closures.CompileBool(u, r.cond, true).fn(RowAt(t, WORD * k + j)))
  }

  lemma NothingFilled(t: Table, progs: seq<Program>, out: seq<array<Word>>)
    requires |out| == |progs| && forall r :: 0 <= r < |out| ==> AllZero(out[r][..])
    ensures Filled(t, progs, {}, out) && forall w: nat :: !ChunkIn(w, 0, {})
  {
    hide BitOf, AllZero, Partial;
    forall r | 0 <= r < |out| ensures Partial(t, progs[r].root, 0, t.n, {}, out[r][..]) {
      NothingDone(t, progs[r].root, 0, t.n, out[r][..]);
    }
  }

  lemma EveryChunk(n: nat, order: seq<nat>, w: nat)
    requires w < Words(n) && forall c: nat :: CHUNK * c < n <==> c in order
    ensures ChunkIn(w, 0, ChunksOf(order))
  {
    var c := WORD * w / CHUNK;
    assert CHUNK * c < n;
  }

  lemma MaskFilled(u: Unicode, rules: seq<Rule>, t: Table, progs: seq<Program>, done: set<nat>, out: seq<array<Word>>,
      r: nat)
    requires Compiled(u, rules, t, progs) && Filled(t, progs, done, out) && Sane(u) && r < |rules|
    requires out[r].Length == Words(t.n)
    requires forall w: nat :: w < Words(t.n) ==> ChunkIn(w, 0, done)
    ensures MaskIs(u, rules[r], t, out[r][..])
  {
    hide BitOf, ChunkIn, RowAt, Sane, Value;
    var ws := out[r][..];
    assert Partial(t, progs[r].root, 0, t.n, done, ws);
    forall k: nat, j: nat | k < |ws| && j < WORD
      ensures ws[k][j] == (WORD * k + j < t.n && Matches(u, rules[r], RowAt(t, WORD * k + j)))
      ensures ws[k][j] ==
                (WORD * k + j < t.n && Closures.CompileBool(u, rules[r].cond, true).fn(RowAt(t, WORD * k + j)))
    {
      assert ws[k][j] == (WORD * k + j < t.n && BitOf(t, progs[r].root, WORD * k + j));
      if WORD * k + j < t.n { Closures.CompiledMeansKleene(u, rules[r].cond, true, RowAt(t, WORD * k + j)); }
    }
  }

  /** Decides every row of a table, chunks in any order that takes each once: every row gets the action
  and the deciding rule online evaluation gives it, each rule's mask holds exactly the rows its closure
  answers yes on, and an unsupported rule is refused. */
  method EvaluateRuleSet(u: Unicode, h: Hasher, rules: seq<Rule>, t: Table, order: seq<nat>)
    returns (d: Option<Decisions>)
    requires Built(t) && Sane(u) && forall c: nat :: CHUNK * c < t.n <==> c in order
    ensures d.None? <==> exists r :: 0 <= r < |rules| && !Compilable(t, rules[r].cond)
    ensures d.Some? ==> d.value.words.Length == Words(t.n)
    ensures d.Some? ==> forall k: nat :: k < Words(t.n) ==> WordDecided(u, rules, t, k, d.value.words[k])
    ensures d.Some? ==> forall k: nat :: k < Words(t.n) ==>
              var v := d.value.words[k];
              && |v.action| == |v.rule| == WORD
              && forall j: nat :: j < WORD ==> RowDecided(u, rules, t, k, v, j)
    ensures d.Some? ==> |d.value.masks| == |rules| && forall r :: 0 <= r < |rules| ==>
              MaskIs(u, rules[r], t, d.value.masks[r][..])
  {
    hide RowDecided, RowAt;
    hide Built, Sane, Compiled, Filled, WordDecided, MaskIs, Partial, AfterRules, DecisionOrder, AllZero, Column;
    hide Separate, ChunkIn;
    var compiled := CompileRuleSet(u, h, rules, t);
    if compiled.None? { return None; }
    var progs := compiled.value;
    var masks := NewBitmaps(|progs|, t.n);
    var nf, nw := MostScratch(progs);
    var s := NewScratch(nf, nw);
    var words := new Verdicts[Words(t.n)](_ => BLANK);
    ghost var done: set<nat> := {};
    NothingFilled(t, progs, masks);
    for k := 0 to |order|
      invariant done == ChunksOf(order[..k]) && Filled(t, progs, done, masks)
      invariant forall w: nat :: w < words.Length && ChunkIn(w, 0, done) ==> WordDecided(u, rules, t, w, words[w])
    {
      assert order[k] in order;
      RunAndDecide(u, rules, t, progs, masks, s, words, order[k], done);
      done := done + {order[k]};
      assert order[..k + 1] == order[..k] + [order[k]];
    }
    assert order[..|order|] == order;
    forall w: nat | w < words.Length ensures ChunkIn(w, 0, done) { EveryChunk(t.n, order, w); }
    forall r | 0 <= r < |rules| ensures |masks| == |rules| && MaskIs(u, rules[r], t, masks[r][..]) {
      MaskFilled(u, rules, t, progs, done, masks, r);
    }
    forall w: nat | w < words.Length { WordIsRows(u, rules, t, w, words[w]); }
    d := Some(Decisions(masks, words));
  }
}
