/** What a successful parse has read: how many tokens its tree weighs, where its parentheses close, and which trees
the Pratt loop holds on the way (internal/rules/parser.go). */
module Readings {
  import opened Domain
  import opened Syntax
  import opened Parsing

  // ---- weights -------------------------------------------------------------------------------

  /** Parentheses weigh nothing, except the opening one of a call without arguments. */
  predicate Counts(toks: seq<Token>, p: nat) {
    p < |toks| && !toks[p].RParen? && (toks[p].LParen? ==> Peek(toks, p + 1).RParen?)
  }

  function Count(toks: seq<Token>, i: nat, j: nat): nat {
    if j <= i then 0 else Count(toks, i, j - 1) + if Counts(toks, j - 1) then 1 else 0
  }

  /** How many parentheses are open at j that were not at i. */
  function Depth(toks: seq<Token>, i: nat, j: nat): int {
    if j <= i then 0
    else Depth(toks, i, j - 1) + if Peek(toks, j - 1).LParen? then 1 else if Peek(toks, j - 1).RParen? then -1 else 0
  }

  lemma {:induction false} Split(toks: seq<Token>, i: nat, j: nat, k: nat)
    requires i <= j <= k
    ensures Count(toks, i, k) == Count(toks, i, j) + Count(toks, j, k)
    ensures Depth(toks, i, k) == Depth(toks, i, j) + Depth(toks, j, k)
    decreases k
  {
    if j < k { Split(toks, i, j, k - 1); }
  }

  /** From i to j parentheses match, and the tokens weigh w. */
  ghost predicate Weighs(toks: seq<Token>, i: nat, j: nat, w: nat) {
    && i < j <= |toks| && Count(toks, i, j) == w && Depth(toks, i, j) == 0
    && forall k :: i <= k <= j ==> Depth(toks, i, k) >= 0
  }

  lemma OneWeighs(toks: seq<Token>, i: nat)
    requires i < |toks| && !toks[i].LParen? && !toks[i].RParen?
    ensures Weighs(toks, i, i + 1, 1)
  {
    assert Depth(toks, i, i) == 0 && Count(toks, i, i) == 0;
  }

  lemma BothWeigh(toks: seq<Token>, i: nat, j: nat, k: nat, v: nat, w: nat)
    requires Weighs(toks, i, j, v) && Weighs(toks, j, k, w)
    ensures Weighs(toks, i, k, v + w)
  {
    Split(toks, i, j, k);
    forall m | i <= m <= k ensures Depth(toks, i, m) >= 0 {
      if m > j { Split(toks, i, j, m); }
    }
  }

  lemma GroupWeighs(toks: seq<Token>, i: nat, j: nat, w: nat)
    requires i < |toks| && toks[i].LParen? && Weighs(toks, i + 1, j, w) && j < |toks| && toks[j].RParen?
    ensures Weighs(toks, i, j + 1, w)
  {
    hide Count;
    NotClosedYet(toks, i + 1, j, w);
    Single(toks, i);
    Single(toks, j);
    Split(toks, i, i + 1, j);
    Split(toks, i, j, j + 1);
    forall m | i <= m <= j + 1 ensures Depth(toks, i, m) >= 0 {
      if i < m <= j { Split(toks, i, i + 1, m); }
    }
  }

  lemma Single(toks: seq<Token>, i: nat)
    ensures Count(toks, i, i + 1) == if Counts(toks, i) then 1 else 0
    ensures Depth(toks, i, i + 1) == if Peek(toks, i).LParen? then 1 else if Peek(toks, i).RParen? then -1 else 0
  {
    assert Depth(toks, i, i) == 0 && Count(toks, i, i) == 0;
  }

  /** What weighs something does not start with a closing parenthesis. */
  lemma NotClosedYet(toks: seq<Token>, i: nat, j: nat, w: nat)
    requires Weighs(toks, i, j, w)
    ensures !Peek(toks, i).RParen?
  {
    Single(toks, i);
    assert Depth(toks, i, i + 1) >= 0;
  }

  lemma EmptyCallWeighs(toks: seq<Token>, i: nat)
    requires i + 2 < |toks| && toks[i].Ident? && toks[i + 1].LParen? && toks[i + 2].RParen?
    ensures Weighs(toks, i, i + 3, 2)
  {
    assert Depth(toks, i, i) == 0 && Count(toks, i, i) == 0;
    assert Depth(toks, i, i + 1) == 0 && Count(toks, i, i + 1) == 1;
    assert Depth(toks, i, i + 2) == 1 && Count(toks, i, i + 2) == 2;
  }

  /** What its tree weighs, however it is parenthesised. */
  function Weight(e: Expr): nat {
    match e
    case Unary(_, x) => 1 + Weight(x)
    case Binary(_, x, y) => 1 + Weight(x) + Weight(y)
    case In(x, list) => 1 + Weight(x) + Weight(list)
    case Call(_, args) => if args == [] then 2 else 1 + WeightAll(args)
    case ListLit(items) => if items == [] then 2 else 2 + WeightAll(items)
    case _ => 1
  }

  /** With the commas. */
  function WeightAll(es: seq<Expr>): nat
    requires es != []
  {
    if |es| == 1 then Weight(es[0]) else Weight(es[0]) + 1 + WeightAll(es[1..])
  }

  lemma ItemWeighs(toks: seq<Token>, i: nat)
    requires ParseItem(toks, i).Some?
    ensures Weighs(toks, i, ParseItem(toks, i).value.1, Weight(ParseItem(toks, i).value.0))
  {
    OneWeighs(toks, i);
    if toks[i].OpTok? {
      OneWeighs(toks, i + 1);
      BothWeigh(toks, i, i + 1, i + 2, 1, 1);
    }
    hide Weighs;
  }

  lemma ConsWeighs(e: Expr, rest: seq<Expr>)
    requires rest != []
    ensures WeightAll([e] + rest) == Weight(e) + 1 + WeightAll(rest)
  {
    assert ([e] + rest)[1..] == rest;
  }

  lemma {:induction false} ItemsWeigh(toks: seq<Token>, i: nat)
    requires ParseItems(toks, i).Some?
    ensures var (es, j) := ParseItems(toks, i).value;
            es != [] && Weighs(toks, i, j, WeightAll(es) + 1)
    decreases if i < |toks| then |toks| - i else 0
  {
    ItemWeighs(toks, i);
    hide Weighs, ParseItem, Weight;
    var (e, j) := ParseItem(toks, i).value;
    OneWeighs(toks, j);
    if Peek(toks, j).Comma? {
      ItemsWeigh(toks, j + 1);
      var (rest, k) := ParseItems(toks, j + 1).value;
      ConsWeighs(e, rest);
      BothWeigh(toks, j, j + 1, k, 1, WeightAll(rest) + 1);
      BothWeigh(toks, i, j, k, Weight(e), WeightAll(rest) + 2);
    } else {
      BothWeigh(toks, i, j, j + 1, Weight(e), 1);
    }
  }

  lemma ListWeighs(toks: seq<Token>, i: nat)
    requires ParseList(toks, i).Some?
    ensures Weighs(toks, i, ParseList(toks, i).value.1, Weight(ParseList(toks, i).value.0))
  {
    OneWeighs(toks, i);
    if toks[i].LBrack? {
      ItemsWeigh(toks, i + 1);
      var (es, j) := ParseItems(toks, i + 1).value;
      BothWeigh(toks, i, i + 1, j, 1, WeightAll(es) + 1);
    }
    hide Weighs, ParseItems;
  }

  /** Whatever is parsed weighs what its tree does. */
  lemma {:induction false} ExprWeighs(toks: seq<Token>, i: nat, min: nat)
    requires i <= |toks| && ParseExpr(toks, i, min).Some?
    ensures Weighs(toks, i, ParseExpr(toks, i, min).value.1, Weight(ParseExpr(toks, i, min).value.0))
    decreases |toks| - i, 2
  {
    hide Weighs, ParsePrefix, Fold, Weight;
    PrefixWeighs(toks, i);
    var l := ParsePrefix(toks, i).value;
    FoldWeighs(toks, i, l.1, min, l.0, false);
  }

  lemma {:induction false} ArgsWeigh(toks: seq<Token>, i: nat)
    requires i <= |toks| && ParseArgs(toks, i).Some?
    ensures var (es, j) := ParseArgs(toks, i).value;
            es != [] && i < j - 1 && Weighs(toks, i, j - 1, WeightAll(es)) && Peek(toks, j - 1).RParen?
    decreases |toks| - i, 3
  {
    hide Weighs, ParseExpr, Weight;
    ExprWeighs(toks, i, LOWEST);
    var (e, j) := ParseExpr(toks, i, LOWEST).value;
    if Peek(toks, j).Comma? {
      OneWeighs(toks, j);
      ArgsWeigh(toks, j + 1);
      var (rest, k) := ParseArgs(toks, j + 1).value;
      ConsWeighs(e, rest);
      BothWeigh(toks, j, j + 1, k - 1, 1, WeightAll(rest));
      BothWeigh(toks, i, j, k - 1, Weight(e), WeightAll(rest) + 1);
    }
  }

  lemma {:induction false} PrefixWeighs(toks: seq<Token>, i: nat)
    requires i <= |toks| && ParsePrefix(toks, i).Some?
    ensures Weighs(toks, i, ParsePrefix(toks, i).value.1, Weight(ParsePrefix(toks, i).value.0))
    decreases |toks| - i, 1
  {
    hide Weighs, ParseExpr, ParseArgs;
    match toks[i]
    case NotTok => OperandWeighs(toks, i, Not);
    case OpTok(_) => OperandWeighs(toks, i, Neg);
    case LParen =>
      ExprWeighs(toks, i + 1, LOWEST);
      GroupWeighs(toks, i, ParseExpr(toks, i + 1, LOWEST).value.1, Weight(ParseExpr(toks, i + 1, LOWEST).value.0));
    case Ident(_) => CallWeighs(toks, i);
    case _ => OneWeighs(toks, i);
  }

  lemma {:induction false} OperandWeighs(toks: seq<Token>, i: nat, op: Op)
    requires i < |toks| && !toks[i].LParen? && !toks[i].RParen? && ParseOperand(toks, i, op).Some?
    ensures Weighs(toks, i, ParseOperand(toks, i, op).value.1, Weight(ParseOperand(toks, i, op).value.0))
    decreases |toks| - i, 0
  {
    hide Weighs, ParseExpr;
    OneWeighs(toks, i);
    ExprWeighs(toks, i + 1, Prec(op));
    var x := ParseExpr(toks, i + 1, Prec(op)).value;
    BothWeigh(toks, i, i + 1, x.1, 1, Weight(x.0));
  }

  lemma {:induction false} CallWeighs(toks: seq<Token>, i: nat)
    requires i + 1 < |toks| && toks[i].Ident? && toks[i + 1].LParen? && ParseCall(toks, i, toks[i].text).Some?
    ensures var r := ParseCall(toks, i, toks[i].text); Weighs(toks, i, r.value.1, Weight(r.value.0))
    decreases |toks| - i, 0
  {
    hide Weighs, ParseArgs;
    if Peek(toks, i + 2).RParen? {
      EmptyCallWeighs(toks, i);
    } else {
      ArgsWeigh(toks, i + 2);
      var (args, j) := ParseArgs(toks, i + 2).value;
      OneWeighs(toks, i);
      GroupWeighs(toks, i + 1, j - 1, WeightAll(args));
      BothWeigh(toks, i, i + 1, j, 1, WeightAll(args));
    }
  }

  /** The loop, with what it holds read from s on. */
  lemma InWeighs(toks: seq<Token>, s: nat, i: nat, p: nat, w: nat)
    requires Weighs(toks, s, i, w) && i < p && Weighs(toks, i, p, p - i) && ParseList(toks, p).Some?
    ensures var list := ParseList(toks, p).value; Weighs(toks, s, list.1, w + p - i + Weight(list.0))
  {
    hide *;
    var list := ParseList(toks, p).value;
    ListWeighs(toks, p);
    BothWeigh(toks, i, p, list.1, p - i, Weight(list.0));
    BothWeigh(toks, s, i, list.1, w, p - i + Weight(list.0));
  }

  lemma {:induction false} FoldWeighs(toks: seq<Token>, s: nat, i: nat, min: nat, left: Expr, compared: bool)
    requires i <= |toks| && Weighs(toks, s, i, Weight(left)) && Fold(toks, i, min, left, compared).Some?
    requires s < i
    ensures var r := Fold(toks, i, min, left, compared).value; Weighs(toks, s, r.1, Weight(r.0))
    decreases |toks| - i, 0
  {
    hide Weighs, ParseExpr, ParseList;
    var t, prec := Peek(toks, i), InfixPrec(toks, i);
    if prec > min {
      OneWeighs(toks, i);
      if t.InTok? || t.NotTok? {
        var p := if t.NotTok? then i + 2 else i + 1;
        if t.NotTok? {
          OneWeighs(toks, i + 1);
          BothWeigh(toks, i, i + 1, i + 2, 1, 1);
        }
        var list := ParseList(toks, p).value;
        InWeighs(toks, s, i, p, Weight(left));
        var e := In(left, list.0);
        FoldWeighs(toks, s, list.1, min, if t.NotTok? then Unary(Not, e) else e, true);
      } else {
        ExprWeighs(toks, i + 1, prec);
        var right := ParseExpr(toks, i + 1, prec).value;
        BothWeigh(toks, i, i + 1, right.1, 1, Weight(right.0));
        BothWeigh(toks, s, i, right.1, Weight(left), 1 + Weight(right.0));
        FoldWeighs(toks, s, right.1, min, Binary(InfixOp(t), left, right.0), prec == COMPARE);
      }
    }
  }

  // ---- the loop, turn by turn --------------------------------------------------------------------

  predicate Infix(e: Expr) { e.Binary? || e.In? }

  /** A line as the printer writes them: "not" never stands before "in". */
  ghost predicate Clean(toks: seq<Token>) {
    IsLine(toks) && forall p :: 0 <= p < |toks| - 1 && toks[p].NotTok? ==> !toks[p + 1].InTok?
  }

  /** Where the loop stands: what it holds, and whether it folded a comparison last. */
  datatype Stand = Stand(at: nat, left: Expr, compared: bool)

  /** One turn of the loop; None when it stops there or fails. */
  function Turned(toks: seq<Token>, min: nat, s: Stand): (z: Option<Stand>)
    requires s.at <= |toks|
    ensures z.Some? ==> s.at < z.value.at <= |toks|
  {
    var t, prec := Peek(toks, s.at), InfixPrec(toks, s.at);
    if prec <= min || (prec == COMPARE && s.compared) then None
    else if t.InTok? || t.NotTok? then
      var list := ParseList(toks, if t.NotTok? then s.at + 2 else s.at + 1);
      if list.None? then None
      else
        var e := In(s.left, list.value.0);
        Some(Stand(list.value.1, if t.NotTok? then Unary(Not, e) else e, true))
    else if Peek(toks, s.at + 1).EndOfLine? then None
    else
      var right := ParseExpr(toks, s.at + 1, prec);
      if right.None? then None
      else Some(Stand(right.value.1, Binary(InfixOp(t), s.left, right.value.0), prec == COMPARE))
  }

  lemma FoldTurns(toks: seq<Token>, min: nat, s: Stand)
    requires s.at <= |toks|
    ensures var z := Turned(toks, min, s);
            Fold(toks, s.at, min, s.left, s.compared) ==
            if z.Some? then Fold(toks, z.value.at, min, z.value.left, z.value.compared)
            else if InfixPrec(toks, s.at) <= min then Some((s.left, s.at)) else None
  {
    hide ParseExpr, ParseList;
  }

  /** From s the loop comes to z. */
  ghost predicate Gets(toks: seq<Token>, min: nat, s: Stand, z: Stand)
    requires s.at <= |toks|
    decreases |toks| - s.at
  {
    s == z || (Turned(toks, min, s).Some? && Gets(toks, min, Turned(toks, min, s).value, z))
  }

  lemma {:induction false} GetsOn(toks: seq<Token>, min: nat, s: Stand, z: Stand)
    requires s.at <= |toks| && Gets(toks, min, s, z)
    ensures s.at <= z.at <= |toks|
    decreases |toks| - s.at
  {
    hide Turned;
    if s != z { GetsOn(toks, min, Turned(toks, min, s).value, z); }
  }

  /** Before z the loop stood where one turn led to z. */
  lemma {:induction false} Before(toks: seq<Token>, min: nat, s: Stand, z: Stand) returns (y: Stand)
    requires s.at <= |toks| && Gets(toks, min, s, z) && s != z
    ensures y.at <= |toks| && Gets(toks, min, s, y) && Turned(toks, min, y) == Some(z)
    decreases |toks| - s.at
  {
    hide Turned;
    var n := Turned(toks, min, s).value;
    if n == z { y := s; } else { y := Before(toks, min, n, z); }
  }

  /** The loop ends where it stands and nothing more binds. */
  lemma {:induction false} FoldGets(toks: seq<Token>, min: nat, s: Stand) returns (compared: bool)
    requires s.at <= |toks| && Fold(toks, s.at, min, s.left, s.compared).Some?
    ensures var r := Fold(toks, s.at, min, s.left, s.compared).value;
            Gets(toks, min, s, Stand(r.1, r.0, compared)) && InfixPrec(toks, r.1) <= min
    decreases |toks| - s.at
  {
    FoldTurns(toks, min, s);
    hide Turned, Fold, InfixPrec;
    var z := Turned(toks, min, s);
    if z.Some? { compared := FoldGets(toks, min, z.value); } else { compared := s.compared; }
  }

  lemma {:induction false} GetsHeavier(toks: seq<Token>, i: nat, min: nat, s: Stand, z: Stand)
    requires s.at <= |toks| && Weighs(toks, i, s.at, Weight(s.left)) && Gets(toks, min, s, z)
    ensures z.at <= |toks| && Weighs(toks, i, z.at, Weight(z.left)) && (s != z ==> Weight(z.left) > Weight(s.left))
    decreases |toks| - s.at
  {
    hide Turned, Weighs;
    if s != z {
      TurnWeighs(toks, i, min, s);
      GetsHeavier(toks, i, min, Turned(toks, min, s).value, z);
    }
  }

  lemma TurnWeighs(toks: seq<Token>, i: nat, min: nat, s: Stand)
    requires s.at <= |toks| && Weighs(toks, i, s.at, Weight(s.left)) && Turned(toks, min, s).Some?
    ensures var z := Turned(toks, min, s).value;
            Weighs(toks, i, z.at, Weight(z.left)) && Weight(z.left) > Weight(s.left)
  {
    hide Weighs, ParseExpr, ParseList;
    var t, prec := Peek(toks, s.at), InfixPrec(toks, s.at);
    OneWeighs(toks, s.at);
    if t.InTok? || t.NotTok? {
      var p := if t.NotTok? then s.at + 2 else s.at + 1;
      if t.NotTok? {
        OneWeighs(toks, s.at + 1);
        BothWeigh(toks, s.at, s.at + 1, p, 1, 1);
      }
      ListWeighs(toks, p);
      var list := ParseList(toks, p).value;
      BothWeigh(toks, s.at, p, list.1, p - s.at, Weight(list.0));
      BothWeigh(toks, i, s.at, list.1, Weight(s.left), p - s.at + Weight(list.0));
    } else {
      ExprWeighs(toks, s.at + 1, prec);
      var right := ParseExpr(toks, s.at + 1, prec).value;
      BothWeigh(toks, s.at, s.at + 1, right.1, 1, Weight(right.0));
      BothWeigh(toks, i, s.at, right.1, Weight(s.left), 1 + Weight(right.0));
    }
  }

  // ---- an expression from its start ------------------------------------------------------------------

  /** Reading an expression at i the parser comes to hold z. */
  ghost predicate Reaches(toks: seq<Token>, i: nat, min: nat, z: Stand)
    requires i <= |toks|
  {
    var l := ParsePrefix(toks, i);
    l.Some? && Gets(toks, min, Stand(l.value.1, l.value.0, false), z)
  }

  /** Reading an expression at i the parser holds e at some moment. */
  ghost predicate Passes(toks: seq<Token>, i: nat, min: nat, e: Expr)
    requires i <= |toks|
  {
    exists k: nat, compared :: Reaches(toks, i, min, Stand(k, e, compared))
  }

  lemma ExprPasses(toks: seq<Token>, i: nat, min: nat) returns (compared: bool)
    requires i <= |toks| && ParseExpr(toks, i, min).Some?
    ensures var r := ParseExpr(toks, i, min).value;
            Reaches(toks, i, min, Stand(r.1, r.0, compared)) && Passes(toks, i, min, r.0) && InfixPrec(toks, r.1) <= min
  {
    hide ParsePrefix, Fold, Gets, InfixPrec;
    var l := ParsePrefix(toks, i).value;
    compared := FoldGets(toks, min, Stand(l.1, l.0, false));
  }

  lemma ReachedWeighs(toks: seq<Token>, i: nat, min: nat, z: Stand)
    requires i <= |toks| && Reaches(toks, i, min, z)
    ensures z.at <= |toks| && Weighs(toks, i, z.at, Weight(z.left))
  {
    hide Weighs, ParsePrefix;
    PrefixWeighs(toks, i);
    var l := ParsePrefix(toks, i).value;
    GetsHeavier(toks, i, min, Stand(l.1, l.0, false), z);
  }

  /** What the turn that makes an infix tree has found: its left side held, its operator there and free to bind, and
  its right side read after it. */
  ghost predicate MadeBy(toks: seq<Token>, min: nat, y: Stand, e: Expr, end: nat)
    requires Infix(e) && y.at <= |toks|
  {
    && y.left == e.x && y.at < |toks| && Counts(toks, y.at)
    && InfixPrec(toks, y.at) == ExprPrec(e) > min && !(ExprPrec(e) == COMPARE && y.compared)
    && (e.Binary? ==> ParseExpr(toks, y.at + 1, ExprPrec(e)) == Some((e.y, end)))
  }

  /** A turn makes an infix tree, and says whether it compares. */
  lemma TurnMakes(toks: seq<Token>, min: nat, y: Stand)
    requires Clean(toks) && y.at <= |toks| && Turned(toks, min, y).Some?
    ensures var z := Turned(toks, min, y).value;
            Infix(z.left) && MadeBy(toks, min, y, z.left, z.at) && z.compared == (ExprPrec(z.left) == COMPARE)
  {
    hide ParseExpr, ParseList;
    assert Peek(toks, y.at) == toks[y.at];
  }

  /** An infix tree the parser comes to hold was made by a turn, unless it was there from the start. */
  lemma FromTurn(toks: seq<Token>, i: nat, min: nat, z: Stand) returns (y: Stand)
    requires Clean(toks) && i <= |toks| && Reaches(toks, i, min, z)
    requires ParsePrefix(toks, i).Some? ==> ParsePrefix(toks, i).value.0 != z.left
    ensures Infix(z.left) && y.at <= |toks| && Reaches(toks, i, min, y) && MadeBy(toks, min, y, z.left, z.at)
    ensures Weighs(toks, i, y.at, Weight(z.left.x)) && z.compared == (ExprPrec(z.left) == COMPARE)
  {
    hide Clean, ParsePrefix, Turned, Weighs;
    var l := ParsePrefix(toks, i).value;
    y := Before(toks, min, Stand(l.1, l.0, false), z);
    TurnMakes(toks, min, y);
    ReachedWeighs(toks, i, min, y);
  }

  /** Two tokens that weigh something, with as much before one as before the other, are one. */
  lemma SamePlace(toks: seq<Token>, i: nat, j: nat, k: nat)
    requires i <= j && i <= k && Count(toks, i, j) == Count(toks, i, k) && Counts(toks, j) && Counts(toks, k)
    ensures j == k
  {
    if j < k { Later(toks, i, j, k); } else if k < j { Later(toks, i, k, j); }
  }

  lemma Later(toks: seq<Token>, i: nat, j: nat, k: nat)
    requires i <= j < k && Counts(toks, j)
    ensures Count(toks, i, k) > Count(toks, i, j)
  {
    hide Counts;
    Split(toks, i, j, k);
    Split(toks, j, j + 1, k);
    Single(toks, j);
  }
}
