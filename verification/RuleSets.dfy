/** Rule sets: which rule decides a payment, and what adding a rule would change
(internal/rules/ruleset.go, internal/backtest/report.go). */
module RuleSets {
  import opened Domain
  import opened Rows
  import opened Text
  import opened Language
  import opened Meaning
  import Closures

  datatype Action = Allow | Block | Review

  /** A compiled rule: shadow rules are evaluated but never decide. */
  datatype Rule = Rule(cond: Cond, action: Action, shadow: bool)

  predicate Matches(u: Unicode, r: Rule, row: Row) { Value(u, r.cond, row) == True }

  predicate Fires(u: Unicode, r: Rule, a: Action, row: Row) { !r.shadow && r.action == a && Matches(u, r, row) }

  /** The first live rule with this action, at or after i, that matches. */
  function FirstFrom(u: Unicode, rules: seq<Rule>, a: Action, row: Row, i: nat): Option<nat>
    requires i <= |rules|
    decreases |rules| - i
  {
    if i == |rules| then None
    else if Fires(u, rules[i], a, row) then Some(i)
    else FirstFrom(u, rules, a, row, i + 1)
  }

  /** The rule that decides: the first allow rule that matches, else the first block, else the first
  review; none means allowed by default. */
  function Deciding(u: Unicode, rules: seq<Rule>, row: Row): Option<nat> {
    var allow := FirstFrom(u, rules, Allow, row, 0);
    var block := FirstFrom(u, rules, Block, row, 0);
    if allow.Some? then allow else if block.Some? then block else FirstFrom(u, rules, Review, row, 0)
  }

  function ActionOf(u: Unicode, rules: seq<Rule>, row: Row): Action {
    var d := Deciding(u, rules, row);
    if d.Some? && d.value < |rules| then rules[d.value].action else Allow
  }

  ghost predicate AnyFires(u: Unicode, rules: seq<Rule>, a: Action, row: Row) {
    exists i :: 0 <= i < |rules| && Fires(u, rules[i], a, row)
  }

  lemma {:induction false} FirstFires(u: Unicode, rules: seq<Rule>, a: Action, row: Row, i: nat)
    requires i <= |rules|
    ensures var f := FirstFrom(u, rules, a, row, i);
            if f.None? then forall k :: i <= k < |rules| ==> !Fires(u, rules[k], a, row)
            else && i <= f.value < |rules| && Fires(u, rules[f.value], a, row)
                 && forall k :: i <= k < f.value ==> !Fires(u, rules[k], a, row)
    decreases |rules| - i
  {
    hide Fires;
    if i < |rules| { FirstFires(u, rules, a, row, i + 1); }
  }

  /** The action follows the documented order: allow rules win, then block, then review. */
  lemma ActionIsRadars(u: Unicode, rules: seq<Rule>, row: Row)
    ensures ActionOf(u, rules, row) ==
              if AnyFires(u, rules, Allow, row) then Allow
              else if AnyFires(u, rules, Block, row) then Block
              else if AnyFires(u, rules, Review, row) then Review else Allow
    ensures var d := Deciding(u, rules, row);
            if d.None? then forall a :: !AnyFires(u, rules, a, row)
            else && d.value < |rules| && Fires(u, rules[d.value], rules[d.value].action, row)
                 && forall k :: 0 <= k < d.value ==> !Fires(u, rules[k], rules[d.value].action, row)
  {
    hide Matches;
    FirstFires(u, rules, Allow, row, 0);
    FirstFires(u, rules, Block, row, 0);
    FirstFires(u, rules, Review, row, 0);
    hide FirstFrom;
  }

  /** What deciding is: with no rule that is live and TRUE the payment is allowed; else the rule is one, it is the first
  such with its action, an allow rule comes before a block rule and either before a review rule. */
  ghost predicate Decides(u: Unicode, rules: seq<Rule>, row: Row, rule: Option<nat>, action: Action) {
    if rule.None? then
      action == Allow && forall i :: 0 <= i < |rules| && !rules[i].shadow ==> !Says(u, rules[i].cond, row, true)
    else
      && rule.value < |rules| && !rules[rule.value].shadow && rules[rule.value].action == action
      && Says(u, rules[rule.value].cond, row, true)
      && forall i :: 0 <= i < |rules| && !rules[i].shadow && Says(u, rules[i].cond, row, true) ==>
           && (rules[i].action == action ==> rule.value <= i)
           && (action == Block ==> rules[i].action != Allow)
           && (action == Review ==> rules[i].action == Review)
  }

  lemma FiresSays(u: Unicode, r: Rule, a: Action, row: Row)
    ensures Fires(u, r, a, row) <==> !r.shadow && r.action == a && Says(u, r.cond, row, true)
  {
    SaysItsValue(u, r.cond, row, true);
    hide Says, Value;
  }

  /** The documented order decides. */
  lemma RadarsOrder(u: Unicode, rules: seq<Rule>, row: Row)
    ensures Decides(u, rules, row, Deciding(u, rules, row), ActionOf(u, rules, row))
  {
    ActionIsRadars(u, rules, row);
    forall i, a | 0 <= i < |rules|
      ensures Fires(u, rules[i], a, row) <==>
              !rules[i].shadow && rules[i].action == a && Says(u, rules[i].cond, row, true)
    {
      FiresSays(u, rules[i], a, row);
    }
    hide Fires, Says, Deciding;
    forall i, a | 0 <= i < |rules| && Fires(u, rules[i], a, row) ensures AnyFires(u, rules, a, row) {}
  }

  // ---- adding a rule ----------------------------------------------------------------

  function Inserted(rules: seq<Rule>, at: nat, r: Rule): seq<Rule>
    requires at <= |rules|
  {
    rules[..at] + [r] + rules[at..]
  }

  lemma InsertedFires(u: Unicode, rules: seq<Rule>, at: nat, r: Rule, a: Action, row: Row)
    requires at <= |rules|
    ensures AnyFires(u, Inserted(rules, at, r), a, row) <==> AnyFires(u, rules, a, row) || Fires(u, r, a, row)
  {
    hide Fires;
    var more := Inserted(rules, at, r);
    if AnyFires(u, rules, a, row) {
      var i :| 0 <= i < |rules| && Fires(u, rules[i], a, row);
      assert more[if i < at then i else i + 1] == rules[i];
    }
    if AnyFires(u, more, a, row) {
      var i :| 0 <= i < |more| && Fires(u, more[i], a, row);
      assert more[i] == if i < at then rules[i] else if i == at then r else rules[i - 1];
    }
    assert more[at] == r;
  }

  /** The rows a backtest says a rule changes. */
  predicate Changes(u: Unicode, rules: seq<Rule>, r: Rule, row: Row)
  {
    Matches(u, r, row) &&
    match r.action
    case Allow => ActionOf(u, rules, row) != Allow
    case Block => !(Deciding(u, rules, row).Some? && ActionOf(u, rules, row) == Allow)
      && ActionOf(u, rules, row) != Block
    case Review => Deciding(u, rules, row).None?
  }

  /** They are exactly the rows whose action differs once the rule is live, at whatever position. */
  lemma ChangesAreExact(u: Unicode, rules: seq<Rule>, r: Rule, row: Row, at: nat)
    requires at <= |rules|
    ensures Changes(u, rules, r, row) <==>
              ActionOf(u, Inserted(rules, at, r.(shadow := false)), row) != ActionOf(u, rules, row)
  {
    hide Deciding, Inserted, Value;
    var live := r.(shadow := false);
    ActionIsRadars(u, rules, row);
    ActionIsRadars(u, Inserted(rules, at, live), row);
    InsertedFires(u, rules, at, live, Allow, row);
    InsertedFires(u, rules, at, live, Block, row);
    InsertedFires(u, rules, at, live, Review, row);
    NoneDecides(u, rules, row);
    hide AnyFires, ActionOf;
  }

  lemma NoneDecides(u: Unicode, rules: seq<Rule>, row: Row)
    ensures Deciding(u, rules, row).None? <==>
              !AnyFires(u, rules, Allow, row) && !AnyFires(u, rules, Block, row) && !AnyFires(u, rules, Review, row)
  {
    ActionIsRadars(u, rules, row);
    hide Fires, Deciding;
  }

  // ---- online evaluation ------------------------------------------------------------

  /** The live rules with an action, in source order. */
  function Group(rules: seq<Rule>, a: Action, n: nat): seq<nat>
    requires n <= |rules|
  {
    if n == 0 then []
    else Group(rules, a, n - 1) + if !rules[n - 1].shadow && rules[n - 1].action == a then [n - 1] else []
  }

  function Shadows(rules: seq<Rule>, n: nat): seq<nat>
    requires n <= |rules|
  {
    if n == 0 then [] else Shadows(rules, n - 1) + if rules[n - 1].shadow then [n - 1] else []
  }

  /** The shadow rules whose condition holds, in source order. */
  function ShadowMatches(u: Unicode, rules: seq<Rule>, row: Row, n: nat): seq<nat>
    requires n <= |rules|
  {
    if n == 0 then []
    else ShadowMatches(u, rules, row, n - 1) + if rules[n - 1].shadow && Matches(u, rules[n - 1], row) then [n - 1]
      else []
  }

  /** They are exactly the shadow rules that are TRUE of the row, each once. */
  lemma {:induction false} ShadowsAreExact(u: Unicode, rules: seq<Rule>, row: Row, n: nat)
    requires n <= |rules|
    ensures var m := ShadowMatches(u, rules, row, n);
            && (forall i: nat :: i in m <==> i < n && rules[i].shadow && Says(u, rules[i].cond, row, true))
            && (forall k, l :: 0 <= k < l < |m| ==> m[k] < m[l])
  {
    hide Value;
    if n > 0 {
      ShadowsAreExact(u, rules, row, n - 1);
      var before, m := ShadowMatches(u, rules, row, n - 1), ShadowMatches(u, rules, row, n);
      assert before <= m;
      SaysItsValue(u, rules[n - 1].cond, row, true);
      hide Says;
      forall i: nat ensures i in m <==> i < n && rules[i].shadow && Says(u, rules[i].cond, row, true) {
        if i in before { assert i in m; }
        if i == n - 1 && |m| > |before| { assert m[|before|] == i; }
      }
      forall k, l | 0 <= k < l < |m| ensures m[k] < m[l] { assert m[k] == before[k] && before[k] in before; }
    }
  }

  ghost predicate InGroup(rules: seq<Rule>, a: Action, i: nat)
  {
    i < |rules| && !rules[i].shadow && rules[i].action == a
  }

  lemma {:induction false} GroupHas(rules: seq<Rule>, a: Action, n: nat)
    requires n <= |rules|
    ensures forall k :: 0 <= k < |Group(rules, a, n)| ==>
              Group(rules, a, n)[k] < n && InGroup(rules, a, Group(rules, a, n)[k])
    ensures forall k: nat :: k < n && InGroup(rules, a, k) ==> k in Group(rules, a, n)
  {
    if n > 0 { GroupHas(rules, a, n - 1); }
  }

  lemma {:induction false} GroupAscends(rules: seq<Rule>, a: Action, n: nat, k: nat, l: nat)
    requires n <= |rules| && k < l < |Group(rules, a, n)|
    ensures Group(rules, a, n)[k] < Group(rules, a, n)[l]
    decreases n
  {
    GroupHas(rules, a, n - 1);
    if l < |Group(rules, a, n - 1)| { GroupAscends(rules, a, n - 1, k, l); }
  }

  class RuleSet {
    const u: Unicode
    const rules: seq<Rule>
    var allow: seq<nat>
    var block: seq<nat>
    var review: seq<nat>
    var shadow: seq<nat>

    ghost predicate Valid()
      reads this
    {
      && allow == Group(rules, Allow, |rules|) && block == Group(rules, Block, |rules|)
      && review == Group(rules, Review, |rules|) && shadow == Shadows(rules, |rules|)
    }

    /** Groups compiled rules for evaluation. */
    constructor (u: Unicode, rules: seq<Rule>)
      ensures Valid() && this.rules == rules && this.u == u
    {
      this.u, this.rules := u, rules;
      allow, block, review, shadow := [], [], [], [];
      new;
      for i := 0 to |rules|
        invariant allow == Group(rules, Allow, i) && block == Group(rules, Block, i)
        invariant review == Group(rules, Review, i) && shadow == Shadows(rules, i)
      {
        if rules[i].shadow {
          shadow := shadow + [i];
        } else {
          match rules[i].action
          case Allow => allow := allow + [i];
          case Block => block := block + [i];
          case Review => review := review + [i];
        }
      }
    }

    /** The first rule of a group that matches. */
    method FirstOf(group: seq<nat>, a: Action, row: Row) returns (first: Option<nat>)
      requires group == Group(rules, a, |rules|) && Sane(u)
      ensures first == FirstFrom(u, rules, a, row, 0)
    {
      hide Value, Sane;
      GroupHas(rules, a, |rules|);
      FirstFires(u, rules, a, row, 0);
      for k := 0 to |group|
        invariant forall l :: 0 <= l < k ==> !Matches(u, rules[group[l]], row)
      {
        var r := rules[group[k]];
        Closures.CompiledMeansKleene(u, r.cond, true, row);
        if Closures.CompileBool(u, r.cond, true).fn(row) {
          forall i: nat | i < group[k] ensures !Fires(u, rules[i], a, row) {
            if !rules[i].shadow && rules[i].action == a {
              assert InGroup(rules, a, i);
              var l :| 0 <= l < |group| && group[l] == i;
              if k < l { GroupAscends(rules, a, |rules|, k, l); }
            }
          }
          FirstIs(u, rules, a, row, group[k]);
          return Some(group[k]);
        }
      }
      forall i: nat | i < |rules| ensures !Fires(u, rules[i], a, row) {
        if InGroup(rules, a, i) {
          var l :| 0 <= l < |group| && group[l] == i;
          assert !Matches(u, rules[group[l]], row);
        }
      }
      return None;
    }

    /** Decides a payment: every shadow rule is asked, and the first live match in Radar's order wins. */
    method Evaluate(row: Row) returns (action: Action, rule: Option<nat>, matched: seq<nat>)
      requires Valid() && Sane(u)
      ensures rule == Deciding(u, rules, row) && action == ActionOf(u, rules, row)
      ensures matched == ShadowMatches(u, rules, row, |rules|)
      ensures Decides(u, rules, row, rule, action)
      ensures forall i: nat :: i in matched <==> i < |rules| && rules[i].shadow && Says(u, rules[i].cond, row, true)
    {
      hide Value, Sane, FirstFrom, Says, Decides;
      ShadowsAreExact(u, rules, row, |rules|);
      RadarsOrder(u, rules, row);
      matched := ShadowsOf(row);
      action := Allow;
      rule := FirstOf(allow, Allow, row);
      if rule.None? { rule := FirstOf(block, Block, row); }
      if rule.None? { rule := FirstOf(review, Review, row); }
      ActionIsRadars(u, rules, row);
      if rule.Some? { action := rules[rule.value].action; }
    }

    method ShadowsOf(row: Row) returns (matched: seq<nat>)
      requires Valid() && Sane(u)
      ensures matched == ShadowMatches(u, rules, row, |rules|)
    {
      hide Value, Sane, Shadows;
      matched := [];
      ShadowsHas(rules, |rules|);
      for k := 0 to |shadow|
        invariant matched == Sifted(u, rules, shadow, row, k)
      {
        var r := rules[shadow[k]];
        Closures.CompiledMeansKleene(u, r.cond, true, row);
        if Closures.CompileBool(u, r.cond, true).fn(row) { matched := matched + [shadow[k]]; }
      }
      SiftedShadows(u, rules, row, |rules|);
    }
  }

  /** The first k rules of a group that match. */
  function Sifted(u: Unicode, rules: seq<Rule>, group: seq<nat>, row: Row, k: nat): seq<nat>
    requires k <= |group| && forall l :: 0 <= l < |group| ==> group[l] < |rules|
  {
    if k == 0 then []
    else Sifted(u, rules, group, row, k - 1) + if Matches(u, rules[group[k - 1]], row) then [group[k - 1]] else []
  }

  lemma {:induction false} ShadowsHas(rules: seq<Rule>, n: nat)
    requires n <= |rules|
    ensures forall k :: 0 <= k < |Shadows(rules, n)| ==> Shadows(rules, n)[k] < n
  {
    if n > 0 { ShadowsHas(rules, n - 1); }
  }

  lemma {:induction false} SiftedPrefix(u: Unicode, rules: seq<Rule>, group: seq<nat>, more: seq<nat>, row: Row, k: nat)
    requires k <= |group| && group <= more && forall l :: 0 <= l < |more| ==> more[l] < |rules|
    ensures Sifted(u, rules, group, row, k) == Sifted(u, rules, more, row, k)
    decreases k
  {
    hide Value;
    if k > 0 { SiftedPrefix(u, rules, group, more, row, k - 1); }
  }

  lemma {:induction false} SiftedShadows(u: Unicode, rules: seq<Rule>, row: Row, n: nat)
    requires n <= |rules|
    ensures forall l :: 0 <= l < |Shadows(rules, n)| ==> Shadows(rules, n)[l] < |rules|
    ensures Sifted(u, rules, Shadows(rules, n), row, |Shadows(rules, n)|) == ShadowMatches(u, rules, row, n)
    decreases n
  {
    hide Value;
    ShadowsHas(rules, n);
    if n > 0 {
      SiftedShadows(u, rules, row, n - 1);
      SiftedPrefix(u, rules, Shadows(rules, n - 1), Shadows(rules, n), row, |Shadows(rules, n - 1)|);
    }
  }

  lemma FirstIs(u: Unicode, rules: seq<Rule>, a: Action, row: Row, i: nat)
    requires i < |rules| && Fires(u, rules[i], a, row) && forall k :: 0 <= k < i ==> !Fires(u, rules[k], a, row)
    ensures FirstFrom(u, rules, a, row, 0) == Some(i)
  {
    hide Fires;
    FirstFires(u, rules, a, row, 0);
  }
}
