/** How a line groups, with the order of the operators written out (internal/rules/doc.go, internal/rules/ast.go): or,
and, not, comparisons and membership, sums, products, minus. The parser reads that order from its table of binding
powers; here it is not read from there. */
module Grouping {
  import opened Domain
  import opened Syntax
  import opened Parsing
  import Printing

  // ---- what may stand where ------------------------------------------------------------------------------

  predicate IsComparison(op: Op) { op == Eq || op == Ne || op == Lt || op == Le || op == Gt || op == Ge }
  predicate IsSum(op: Op) { op == Add || op == Sub }
  predicate IsProduct(op: Op) { op == Mul || op == Div }

  predicate Joins(e: Expr, op: Op) { e.Binary? && e.op == op }
  predicate ComparesSo(e: Expr) { (e.Binary? && IsComparison(e.op)) || e.In? }
  predicate AddsSo(e: Expr) { e.Binary? && IsSum(e.op) }
  predicate MultipliesSo(e: Expr) { e.Binary? && IsProduct(e.op) }

  /** To the left of an operator, without parentheses: no looser operator. A membership test is none to the left of
  arithmetic: nothing can follow its list but an operator. */
  predicate LeftOf(op: Op, x: Expr) {
    match op
    case Or => true
    case And => !Joins(x, Or)
    case Add | Sub =>
      !Joins(x, Or) && !Joins(x, And) && (x.Unary? && x.op == Not ==> x.x.In?) && (ComparesSo(x) ==> x.In?)
    case Mul | Div =>
      && !Joins(x, Or) && !Joins(x, And) && (x.Unary? && x.op == Not ==> x.x.In?) && (ComparesSo(x) ==> x.In?)
      && !AddsSo(x)
    case _ => !Joins(x, Or) && !Joins(x, And) && !(x.Unary? && x.op == Not) && !ComparesSo(x)
  }

  /** To the right of one: no looser operator, nor an equally loose one, but a not may begin there. */
  predicate RightOf(op: Op, y: Expr) {
    match op
    case Or => !Joins(y, Or)
    case And => !Joins(y, Or) && !Joins(y, And)
    case Add | Sub => !Joins(y, Or) && !Joins(y, And) && !ComparesSo(y) && !AddsSo(y)
    case Mul | Div => !Joins(y, Or) && !Joins(y, And) && !ComparesSo(y) && !AddsSo(y) && !MultipliesSo(y)
    case _ => !Joins(y, Or) && !Joins(y, And) && !ComparesSo(y)
  }

  /** After a not, no and or or; after a minus, no infix operator. */
  predicate After(op: Op, x: Expr) {
    if op == Not then !Joins(x, Or) && !Joins(x, And) else !x.Binary? && !x.In?
  }

  // ---- a tree spelled by tokens ------------------------------------------------------------------------------

  function SignOf(op: Op): Token {
    match op
    case Or => OrTok
    case And => AndTok
    case _ => OpTok(op)
  }

  /** Tokens i to j spell the tree: in the order of its parts, and an operand without parentheses only where it may
  stand. */
  ghost predicate Spells(toks: seq<Token>, i: nat, j: nat, e: Expr)
    decreases if i < j then j - i else 0, 3
  {
    Bare(toks, i, j, e) || InParens(toks, i, j, e)
  }

  ghost predicate InParens(toks: seq<Token>, i: nat, j: nat, e: Expr)
    decreases if i < j then j - i else 0, 2
  {
    i + 2 < j <= |toks| && toks[i].LParen? && toks[j - 1].RParen? && Spells(toks, i + 1, j - 1, e)
  }

  ghost predicate Bare(toks: seq<Token>, i: nat, j: nat, e: Expr)
    decreases if i < j then j - i else 0, 1
  {
    && i < j <= |toks|
    && match e
       case Attr(name) => j == i + 1 && toks[i] == AttrTok(name)
       case NumberLit(v) => j == i + 1 && toks[i] == NumberTok(v)
       case StringLit(s) => j == i + 1 && toks[i] == StringTok(s)
       case BoolLit(b) => j == i + 1 && toks[i] == if b then TrueTok else FalseTok
       case Unary(op, x) =>
         || (toks[i] == (if op == Not then NotTok else OpTok(Sub)) && (op == Not || op == Neg)
             && (InParens(toks, i + 1, j, x) || (Bare(toks, i + 1, j, x) && After(op, x))))
         || (op == Not && x.In? && exists k :: i < k && k + 2 < j && IsMember(toks, i, k, j, x, true))
       case Binary(op, x, y) => exists k :: i < k && k + 1 < j && IsInfix(toks, i, k, j, op, x, y)
       case In(_, _) => exists k :: i < k && k + 1 < j && IsMember(toks, i, k, j, e, false)
       case Call(name, args) =>
         && i + 2 < j && toks[i] == Ident(name) && toks[i + 1].LParen? && toks[j - 1].RParen?
         && IsArgs(toks, i + 2, j - 1, args)
       case ListRef(_) => false
       case ListLit(_) => false
  }

  /** An infix operator at k between its operands. */
  ghost predicate IsInfix(toks: seq<Token>, i: nat, k: nat, j: nat, op: Op, x: Expr, y: Expr)
    requires i < k && k + 1 < j <= |toks|
    decreases j - i, 0
  {
    && toks[k] == SignOf(op)
    && (InParens(toks, i, k, x) || (Bare(toks, i, k, x) && LeftOf(op, x)))
    && (InParens(toks, k + 1, j, y) || (Bare(toks, k + 1, j, y) && RightOf(op, y)))
  }

  /** A membership test at k, negated or not. */
  ghost predicate IsMember(toks: seq<Token>, i: nat, k: nat, j: nat, e: Expr, negated: bool)
    requires i < k && k + 1 < j <= |toks|
    decreases j - i, 0
  {
    && e.In? && (if negated then toks[k].NotTok? && toks[k + 1].InTok? else toks[k].InTok?)
    && (InParens(toks, i, k, e.x) || (Bare(toks, i, k, e.x) && LeftOf(Eq, e.x)))
    && IsListAt(toks, if negated then k + 2 else k + 1, j, e.list)
  }

  ghost predicate IsListAt(toks: seq<Token>, i: nat, j: nat, list: Expr) {
    && i < j <= |toks|
    && match list
       case ListRef(name) => j == i + 1 && toks[i] == ListTok(name)
       case ListLit(items) =>
         i + 2 < j && toks[i].LBrack? && toks[j - 1].RBrack? && AreItems(toks, i + 1, j - 1, items)
       case _ => false
  }

  ghost predicate IsItemAt(toks: seq<Token>, i: nat, j: nat, e: Expr) {
    && i < j <= |toks|
    && match e
       case StringLit(s) => j == i + 1 && toks[i] == StringTok(s)
       case NumberLit(v) => j == i + 1 && toks[i] == NumberTok(v)
       case Unary(op, x) =>
         op == Neg && x.NumberLit? && j == i + 2 && toks[i] == OpTok(Sub) && toks[i + 1] == NumberTok(x.num)
       case _ => false
  }

  ghost predicate AreItems(toks: seq<Token>, i: nat, j: nat, items: seq<Expr>)
    decreases |items|
  {
    if |items| == 0 then false
    else if |items| == 1 then IsItemAt(toks, i, j, items[0])
    else
      exists k ::
        i < k && k < j <= |toks| && toks[k].Comma? && IsItemAt(toks, i, k, items[0])
        && AreItems(toks, k + 1, j, items[1..])
  }

  ghost predicate IsArgs(toks: seq<Token>, i: nat, j: nat, args: seq<Expr>)
    decreases if i < j then j - i else 0, 4
  {
    if |args| == 0 then i == j
    else if |args| == 1 then Spells(toks, i, j, args[0])
    else
      exists k ::
        i < k && k < j <= |toks| && toks[k].Comma? && Spells(toks, i, k, args[0]) && IsArgs(toks, k + 1, j, args[1..])
  }

  // ---- the parser spells ---------------------------------------------------------------------------------------

  /** The table of binding powers, as far as the order matters. */
  lemma TableIsOrder(op: Op)
    ensures Prec(Or) == 1 && Prec(And) == 2 && Prec(Not) == 3 && Prec(Neg) == 7 && COMPARE == 4 && LOWEST == 0
    ensures IsComparison(op) ==> Prec(op) == 4
    ensures IsSum(op) ==> Prec(op) == 5
    ensures IsProduct(op) ==> Prec(op) == 6
  {}

  /** Every operator of the bare tree that stands at its top binds tighter than min, unless it is a prefix. */
  predicate Over(toks: seq<Token>, i: nat, e: Expr, min: nat)
    requires i < |toks|
  {
    match e
    case Binary(op, _, _) => Prec(op) > min
    case In(_, _) => COMPARE > min
    case Unary(op, _) => op == Not && !toks[i].NotTok? ==> COMPARE > min
    case _ => true
  }

  ghost predicate Fits(toks: seq<Token>, i: nat, j: nat, e: Expr, min: nat) {
    InParens(toks, i, j, e) || (Bare(toks, i, j, e) && Over(toks, i, e, min))
  }

  /** How tight the next operator may bind, given what stands before it. */
  function Ceiling(e: Expr): nat { if e.Binary? || (e.Unary? && e.op == Neg) then ExprPrec(e) else ATOM }

  predicate Tests(e: Expr) { ComparesSo(e) || (e.Unary? && e.op == Not) }

  /** What stands before k is ready for the operator there. */
  ghost predicate Ready(toks: seq<Token>, i: nat, k: nat, e: Expr, compared: bool) {
    && i < k <= |toks| && (toks[i].NotTok? ==> InfixPrec(toks, k) <= NOT)
    && (InParens(toks, i, k, e)
        || (Bare(toks, i, k, e) && InfixPrec(toks, k) <= Ceiling(e)
            && (Tests(e) ==> compared || InfixPrec(toks, k) <= NOT)))
  }

  lemma {:induction false} ItemsSpell(toks: seq<Token>, i: nat)
    requires ParseItems(toks, i).Some?
    ensures var (items, j) := ParseItems(toks, i).value;
            i < j - 1 < |toks| && toks[j - 1].RBrack? && AreItems(toks, i, j - 1, items)
    decreases if i < |toks| then |toks| - i else 0
  {
    var (e, k) := ParseItem(toks, i).value;
    assert IsItemAt(toks, i, k, e);
    hide IsItemAt, ParseItem;
    if Peek(toks, k).Comma? {
      ItemsSpell(toks, k + 1);
      var (rest, j) := ParseItems(toks, k + 1).value;
      assert ([e] + rest)[1..] == rest;
      assert ParseItems(toks, i).value == ([e] + rest, j);
      assert AreItems(toks, i, j - 1, [e] + rest);
    }
  }

  lemma ListSpells(toks: seq<Token>, i: nat)
    requires ParseList(toks, i).Some?
    ensures IsListAt(toks, i, ParseList(toks, i).value.1, ParseList(toks, i).value.0)
  {
    if Peek(toks, i).LBrack? { ItemsSpell(toks, i + 1); }
    hide ParseItems, AreItems;
  }

  /** A tree bare after a not or a minus may stand there. */
  lemma OverIsAfter(toks: seq<Token>, i: nat, j: nat, x: Expr, op: Op)
    requires i < |toks| && (op == Not || op == Neg) && Over(toks, i, x, Prec(op))
    ensures After(op, x)
  {}

  lemma PrefixSpells(toks: seq<Token>, i: nat, j: nat, x: Expr, op: Op)
    requires i + 1 < j <= |toks| && (op == Not || op == Neg)
    requires toks[i] == if op == Not then NotTok else OpTok(Sub)
    requires Fits(toks, i + 1, j, x, Prec(op))
    ensures Bare(toks, i, j, Unary(op, x))
  {
    if Bare(toks, i + 1, j, x) && Over(toks, i + 1, x, Prec(op)) { OverIsAfter(toks, i + 1, j, x, op); }
    hide After, Over, InParens;
  }

  /** What is ready may stand to the left of the operator that follows. */
  lemma ReadyIsLeft(toks: seq<Token>, i: nat, k: nat, x: Expr, compared: bool, op: Op)
    requires Ready(toks, i, k, x, compared) && Bare(toks, i, k, x) && !InParens(toks, i, k, x)
    requires InfixPrec(toks, k) == Prec(op) && op != Not && op != Neg && !(Prec(op) == COMPARE && compared)
    ensures LeftOf(op, x)
  {
    hide InParens, IsInfix, IsMember, InfixPrec, IsArgs;
  }

  /** What binds tighter may stand to the right. */
  lemma OverIsRight(toks: seq<Token>, k: nat, y: Expr, op: Op)
    requires k < |toks| && Over(toks, k, y, Prec(op)) && op != Not && op != Neg
    ensures RightOf(op, y)
  {}

  /** An operand where it may stand: in parentheses, or bare and allowed there. */
  ghost predicate Stands(toks: seq<Token>, i: nat, j: nat, e: Expr, allowed: bool) {
    InParens(toks, i, j, e) || (Bare(toks, i, j, e) && allowed)
  }

  lemma ReadyStands(toks: seq<Token>, i: nat, k: nat, x: Expr, compared: bool, op: Op)
    requires Ready(toks, i, k, x, compared) && op != Not && op != Neg
    requires InfixPrec(toks, k) == Prec(op) && !(Prec(op) == COMPARE && compared)
    ensures Stands(toks, i, k, x, LeftOf(op, x)) && i < k <= |toks|
  {
    if !InParens(toks, i, k, x) { ReadyIsLeft(toks, i, k, x, compared, op); }
    hide InParens, LeftOf, Bare;
  }

  lemma FitsStands(toks: seq<Token>, k: nat, j: nat, y: Expr, op: Op)
    requires Fits(toks, k, j, y, Prec(op)) && k < |toks| && op != Not && op != Neg
    ensures Stands(toks, k, j, y, RightOf(op, y))
  {
    if !InParens(toks, k, j, y) { OverIsRight(toks, k, y, op); }
    hide InParens, RightOf, Bare, Over;
  }

  lemma StandIsInfix(toks: seq<Token>, i: nat, k: nat, j: nat, x: Expr, y: Expr, op: Op)
    requires i < k && k + 1 < j <= |toks| && toks[k] == SignOf(op)
    requires Stands(toks, i, k, x, LeftOf(op, x)) && Stands(toks, k + 1, j, y, RightOf(op, y))
    ensures Bare(toks, i, j, Binary(op, x, y))
  {
    hide InParens, LeftOf, RightOf, SignOf;
    assert IsInfix(toks, i, k, j, op, x, y);
  }

  lemma InfixSpells(toks: seq<Token>, i: nat, k: nat, j: nat, x: Expr, y: Expr, compared: bool, op: Op)
    requires Ready(toks, i, k, x, compared) && k + 1 < j <= |toks| && toks[k] == SignOf(op)
    requires InfixPrec(toks, k) == Prec(op) && op != Not && op != Neg && !(Prec(op) == COMPARE && compared)
    requires Fits(toks, k + 1, j, y, Prec(op))
    ensures Bare(toks, i, j, Binary(op, x, y))
  {
    hide *;
    ReadyStands(toks, i, k, x, compared, op);
    FitsStands(toks, k + 1, j, y, op);
    StandIsInfix(toks, i, k, j, x, y, op);
  }

  lemma MemberSpells(toks: seq<Token>, i: nat, k: nat, j: nat, x: Expr, list: Expr, compared: bool, negated: bool)
    requires Ready(toks, i, k, x, compared) && k + 1 < j <= |toks| && !compared && InfixPrec(toks, k) == COMPARE
    requires if negated then toks[k].NotTok? && toks[k + 1].InTok? else toks[k].InTok?
    requires IsListAt(toks, if negated then k + 2 else k + 1, j, list)
    ensures Bare(toks, i, j, if negated then Unary(Not, In(x, list)) else In(x, list))
  {
    if !InParens(toks, i, k, x) { ReadyIsLeft(toks, i, k, x, compared, Eq); }
    hide InParens, LeftOf, Ready, IsListAt;
    assert IsMember(toks, i, k, j, In(x, list), negated) by { ReadyBare(toks, i, k, x, compared); }
    if negated { ListHasRoom(toks, k + 2, j, list); }
  }

  lemma ReadyBare(toks: seq<Token>, i: nat, k: nat, x: Expr, compared: bool)
    requires Ready(toks, i, k, x, compared)
    ensures i < k <= |toks| && (InParens(toks, i, k, x) || Bare(toks, i, k, x))
  {
    hide InParens, Bare;
  }

  lemma ListHasRoom(toks: seq<Token>, i: nat, j: nat, list: Expr)
    requires IsListAt(toks, i, j, list)
    ensures i < j <= |toks|
  {}

  /** Whatever operator comes next, it binds no tighter than a product. */
  lemma NextIsInfix(toks: seq<Token>, k: nat)
    requires IsLine(toks)
    ensures InfixPrec(toks, k) <= PRODUCT
    ensures InfixPrec(toks, k) > LOWEST ==> k < |toks|
    ensures InfixPrec(toks, k) > LOWEST && !toks[k].InTok? && !toks[k].NotTok? ==>
              var op := InfixOp(toks[k]);
              toks[k] == SignOf(op) && InfixPrec(toks, k) == Prec(op) && op != Not && op != Neg
    ensures InfixPrec(toks, k) > LOWEST && toks[k].InTok? ==> InfixPrec(toks, k) == COMPARE
    ensures InfixPrec(toks, k) > LOWEST && toks[k].NotTok? ==>
              InfixPrec(toks, k) == COMPARE && k + 1 < |toks| && toks[k + 1].InTok?
  {}

  /** What an operator has just made is ready for the next, which binds no tighter. */
  lemma MadeIsReady(toks: seq<Token>, i: nat, k: nat, j: nat, x: Expr, y: Expr, compared: bool, op: Op)
    requires IsLine(toks) && Ready(toks, i, k, x, compared) && k < j <= |toks| && op != Not && op != Neg
    requires InfixPrec(toks, k) == Prec(op) && InfixPrec(toks, j) <= Prec(op)
    requires Bare(toks, i, j, Binary(op, x, y))
    ensures Ready(toks, i, j, Binary(op, x, y), Prec(op) == COMPARE)
  {
    TableIsOrder(op);
    hide Bare, InParens, IsLine, InfixPrec;
  }

  lemma TestIsReady(toks: seq<Token>, i: nat, k: nat, j: nat, x: Expr, list: Expr, compared: bool, negated: bool)
    requires IsLine(toks) && Ready(toks, i, k, x, compared) && k < j <= |toks| && InfixPrec(toks, k) == COMPARE
    requires Bare(toks, i, j, if negated then Unary(Not, In(x, list)) else In(x, list))
    ensures !toks[i].NotTok? && Ready(toks, i, j, if negated then Unary(Not, In(x, list)) else In(x, list), true)
  {
    NextIsInfix(toks, j);
    hide Bare, InParens, IsLine, InfixPrec;
  }

  // ---- the recursion --------------------------------------------------------------------------------------------

  lemma {:induction false} ArgsSpell(toks: seq<Token>, i: nat)
    requires IsLine(toks) && i <= |toks| && ParseArgs(toks, i).Some?
    ensures var (args, j) := ParseArgs(toks, i).value;
            i < j - 1 < |toks| && toks[j - 1].RParen? && args != [] && IsArgs(toks, i, j - 1, args)
    decreases |toks| - i, 3
  {
    hide Spells, ParseExpr, IsLine;
    ExprSpells(toks, i, LOWEST);
    var (e, k) := ParseExpr(toks, i, LOWEST).value;
    FitsSpells(toks, i, k, e, LOWEST);
    if Peek(toks, k).Comma? {
      ArgsSpell(toks, k + 1);
      var (rest, j) := ParseArgs(toks, k + 1).value;
      assert ([e] + rest)[1..] == rest;
      assert IsArgs(toks, i, j - 1, [e] + rest);
    }
  }

  lemma FitsSpells(toks: seq<Token>, i: nat, j: nat, e: Expr, min: nat)
    requires Fits(toks, i, j, e, min)
    ensures Spells(toks, i, j, e)
  {}

  lemma {:induction false} PrefixIsReady(toks: seq<Token>, i: nat, min: nat)
    requires IsLine(toks) && i <= |toks| && ParsePrefix(toks, i).Some?
    ensures var (e, k) := ParsePrefix(toks, i).value; Ready(toks, i, k, e, false) && Fits(toks, i, k, e, min)
    decreases |toks| - i, 1
  {
    hide ParseExpr, ParseArgs, IsLine, InfixPrec, InParens, Bare, IsArgs, Spells;
    var (e, k) := ParsePrefix(toks, i).value;
    NextIsInfix(toks, k);
    match toks[i]
    case NotTok =>
      ExprSpells(toks, i + 1, Prec(Not));
      PrefixSpells(toks, i, k, e.x, Not);
    case OpTok(_) =>
      ExprSpells(toks, i + 1, Prec(Neg));
      PrefixSpells(toks, i, k, e.x, Neg);
    case LParen =>
      ExprSpells(toks, i + 1, LOWEST);
      FitsSpells(toks, i + 1, k - 1, e, LOWEST);
      GroupSpells(toks, i, k, e);
    case Ident(_) =>
      if Peek(toks, i + 2).RParen? { NoArgs(toks, i + 2); } else { ArgsSpell(toks, i + 2); }
      CallSpells(toks, i, k, e);
    case _ => AtomSpells(toks, i);
  }

  lemma NoArgs(toks: seq<Token>, i: nat)
    ensures IsArgs(toks, i, i, [])
  {}

  lemma GroupSpells(toks: seq<Token>, i: nat, k: nat, e: Expr)
    requires i + 2 < k <= |toks| && toks[i].LParen? && toks[k - 1].RParen? && Spells(toks, i + 1, k - 1, e)
    ensures InParens(toks, i, k, e)
  {}

  lemma CallSpells(toks: seq<Token>, i: nat, k: nat, e: Expr)
    requires e.Call? && i + 2 < k <= |toks| && toks[i] == Ident(e.name) && toks[i + 1].LParen? && toks[k - 1].RParen?
    requires IsArgs(toks, i + 2, k - 1, e.args)
    ensures Bare(toks, i, k, e)
  {}

  lemma AtomSpells(toks: seq<Token>, i: nat)
    requires i < |toks| && ParsePrefix(toks, i).Some?
    requires !toks[i].NotTok? && !toks[i].OpTok? && !toks[i].LParen? && !toks[i].Ident?
    ensures var (e, k) := ParsePrefix(toks, i).value; k == i + 1 && Bare(toks, i, k, e) && ExprPrec(e) == ATOM
  {}

  lemma {:induction false} ExprSpells(toks: seq<Token>, i: nat, min: nat)
    requires IsLine(toks) && i <= |toks| && ParseExpr(toks, i, min).Some?
    ensures var (e, j) := ParseExpr(toks, i, min).value; Fits(toks, i, j, e, min) && InfixPrec(toks, j) <= min
    decreases |toks| - i, 2
  {
    hide ParsePrefix, Fold, Fits, Ready, InfixPrec, IsLine;
    PrefixIsReady(toks, i, min);
    var (e, k) := ParsePrefix(toks, i).value;
    FoldSpells(toks, i, k, min, e, false);
  }

  lemma {:induction false} FoldSpells(toks: seq<Token>, i: nat, k: nat, min: nat, x: Expr, compared: bool)
    requires IsLine(toks) && i < k <= |toks| && Ready(toks, i, k, x, compared) && Fits(toks, i, k, x, min)
    requires Fold(toks, k, min, x, compared).Some?
    ensures var (e, j) := Fold(toks, k, min, x, compared).value; Fits(toks, i, j, e, min) && InfixPrec(toks, j) <= min
    decreases |toks| - k, 0
  {
    hide ParseExpr, ParseList, Ready, Fits, InfixPrec, IsLine, Bare, InParens, IsListAt;
    NextIsInfix(toks, k);
    var t, p := Peek(toks, k), InfixPrec(toks, k);
    if p > min {
      if t.InTok? || t.NotTok? {
        var m := if t.NotTok? then k + 2 else k + 1;
        ListSpells(toks, m);
        var (list, j) := ParseList(toks, m).value;
        var e := if t.NotTok? then Unary(Not, In(x, list)) else In(x, list);
        MemberSpells(toks, i, k, j, x, list, compared, t.NotTok?);
        TestIsReady(toks, i, k, j, x, list, compared, t.NotTok?);
        BareFits(toks, i, j, e, min);
        FoldSpells(toks, i, j, min, e, true);
      } else {
        var op := InfixOp(t);
        ExprSpells(toks, k + 1, p);
        var (y, j) := ParseExpr(toks, k + 1, p).value;
        InfixSpells(toks, i, k, j, x, y, compared, op);
        MadeIsReady(toks, i, k, j, x, y, compared, op);
        BareFits(toks, i, j, Binary(op, x, y), min);
        FoldSpells(toks, i, j, min, Binary(op, x, y), p == COMPARE);
      }
    }
  }

  lemma BareFits(toks: seq<Token>, i: nat, j: nat, e: Expr, min: nat)
    requires i < j <= |toks| && Bare(toks, i, j, e) && Over(toks, i, e, min)
    ensures Fits(toks, i, j, e, min)
  {}

  /** Whatever line is parsed, its tokens spell the tree: nothing is moved, dropped or added, and every operand that
  is not in parentheses stands where the order of the operators lets it. */
  lemma ParsedIsSpelled(toks: seq<Token>)
    requires IsLine(toks) && Parse(toks).Some?
    ensures Spells(toks, 0, |toks|, Parse(toks).value)
  {
    hide ParseExpr, Spells, Fits;
    ExprSpells(toks, 0, LOWEST);
    var (e, j) := ParseExpr(toks, 0, LOWEST).value;
    FitsSpells(toks, 0, j, e, LOWEST);
  }

  /** So is whatever is printed: the printer's tokens spell the tree it prints. */
  lemma PrintedIsSpelled(e: Expr)
    requires Plain(e)
    ensures Spells(Printing.Print(e), 0, |Printing.Print(e)|, e)
  {
    Printing.PrintsLine(e);
    Printing.PrintedParses(e);
    ParsedIsSpelled(Printing.Print(e));
  }

  // ---- lines without parentheses ---------------------------------------------------------------------------------

  predicate NoParens(toks: seq<Token>) { forall i :: 0 <= i < |toks| ==> !toks[i].LParen? }

  /** Every operand of the tree may stand where it does without parentheses. */
  predicate Grouped(e: Expr) {
    match e
    case Unary(op, x) => After(op, x) && Grouped(x)
    case Binary(op, x, y) => LeftOf(op, x) && RightOf(op, y) && Grouped(x) && Grouped(y)
    case In(x, _) => LeftOf(Eq, x) && Grouped(x)
    case _ => true
  }

  lemma NeverInParens(toks: seq<Token>, i: nat, j: nat, e: Expr)
    requires NoParens(toks)
    ensures !InParens(toks, i, j, e)
  {}

  lemma {:induction false} BareIsGrouped(toks: seq<Token>, i: nat, j: nat, e: Expr)
    requires NoParens(toks) && Bare(toks, i, j, e)
    ensures Grouped(e)
    decreases if i < j then j - i else 0
  {
    hide LeftOf, RightOf, After, IsListAt, IsArgs, InParens;
    match e
    case Binary(op, x, y) =>
      var k :| i < k && k + 1 < j && IsInfix(toks, i, k, j, op, x, y);
      NeverInParens(toks, i, k, x);
      NeverInParens(toks, k + 1, j, y);
      BareIsGrouped(toks, i, k, x);
      BareIsGrouped(toks, k + 1, j, y);
    case In(x, _) =>
      var k :| i < k && k + 1 < j && IsMember(toks, i, k, j, e, false);
      NeverInParens(toks, i, k, x);
      BareIsGrouped(toks, i, k, x);
    case Unary(op, x) =>
      NeverInParens(toks, i + 1, j, x);
      if Bare(toks, i + 1, j, x) && After(op, x) {
        BareIsGrouped(toks, i + 1, j, x);
      } else {
        var k :| i < k && k + 2 < j && IsMember(toks, i, k, j, x, true);
        NeverInParens(toks, i, k, x.x);
        BareIsGrouped(toks, i, k, x.x);
        TestIsAfter(x);
      }
    case _ =>
  }

  lemma TestIsAfter(x: Expr)
    requires x.In?
    ensures After(Not, x)
  {}

  /** Without parentheses a line groups by the order of the operators alone: no and has an or for an operand, no
  comparison a not to its left or a looser operator, no product a sum, and none to its right an equally loose one. */
  lemma GroupsByOrder(toks: seq<Token>)
    requires IsLine(toks) && NoParens(toks) && Parse(toks).Some?
    ensures Grouped(Parse(toks).value)
  {
    ParsedIsSpelled(toks);
    hide Parse, Bare, Grouped;
    BareIsGrouped(toks, 0, |toks|, Parse(toks).value);
  }

  // ---- which of two groupings -------------------------------------------------------------------------------------

  predicate IsOperand(t: Token) { t.AttrTok? || t.NumberTok? || t.StringTok? || t.TrueTok? || t.FalseTok? }

  function OperandOf(t: Token): Expr
    requires IsOperand(t)
  {
    match t
    case AttrTok(name) => Attr(name)
    case NumberTok(v) => NumberLit(v)
    case StringTok(s) => StringLit(s)
    case TrueTok => BoolLit(true)
    case _ => BoolLit(false)
  }

  /** q binds tighter than p. */
  predicate Tighter(q: Op, p: Op) {
    match p
    case Or => q != Or
    case And => q != Or && q != And
    case Add | Sub => IsProduct(q)
    case Mul | Div => false
    case _ => IsSum(q) || IsProduct(q)
  }

  predicate IsInfixOp(op: Op) { op != Not && op != Neg }

  lemma TighterIsMore(q: Op, p: Op)
    requires IsInfixOp(p) && IsInfixOp(q)
    ensures Tighter(q, p) <==> Prec(q) > Prec(p)
    ensures IsComparison(p) <==> Prec(p) == COMPARE
    ensures Prec(p) > LOWEST
  {}

  lemma OperandParses(toks: seq<Token>, i: nat, min: nat)
    requires i < |toks| && IsOperand(toks[i])
    ensures ParsePrefix(toks, i) == Some((OperandOf(toks[i]), i + 1))
    ensures ParseExpr(toks, i, min) == Fold(toks, i + 1, min, OperandOf(toks[i]), false)
  {}

  lemma SignBinds(toks: seq<Token>, k: nat, op: Op)
    requires k < |toks| && IsInfixOp(op) && toks[k] == SignOf(op)
    ensures InfixPrec(toks, k) == Prec(op) && InfixOp(toks[k]) == op && !toks[k].InTok? && !toks[k].NotTok?
  {}

  /** One turn of the loop over an operator and an operand. */
  lemma FoldsOne(toks: seq<Token>, k: nat, min: nat, x: Expr, compared: bool, op: Op)
    requires k + 1 < |toks| && IsInfixOp(op) && toks[k] == SignOf(op) && Prec(op) > min
    requires !(Prec(op) == COMPARE && compared) && !toks[k + 1].EndOfLine?
    requires ParseExpr(toks, k + 1, Prec(op)).Some?
    ensures var (y, j) := ParseExpr(toks, k + 1, Prec(op)).value;
            Fold(toks, k, min, x, compared) == Fold(toks, j, min, Binary(op, x, y), Prec(op) == COMPARE)
  {
    SignBinds(toks, k, op);
    hide ParseExpr, InfixPrec, InfixOp, SignOf;
  }

  /** And where it stops. */
  lemma FoldsNone(toks: seq<Token>, k: nat, min: nat, x: Expr, compared: bool)
    requires k <= |toks| && InfixPrec(toks, k) <= min
    ensures Fold(toks, k, min, x, compared) == Some((x, k))
  {}

  /** Of three operands the tighter operator takes its two first; two that are equally tight are taken from the left,
  except that a comparison may not follow a comparison. */
  lemma ThreeOperands(a: Token, p: Op, b: Token, q: Op, c: Token)
    requires IsOperand(a) && IsOperand(b) && IsOperand(c) && IsInfixOp(p) && IsInfixOp(q)
    ensures var x, y, z := OperandOf(a), OperandOf(b), OperandOf(c);
            Parse([a, SignOf(p), b, SignOf(q), c])
            == if Tighter(q, p) then Some(Binary(p, x, Binary(q, y, z)))
               else if IsComparison(p) && IsComparison(q) then None
               else Some(Binary(q, Binary(p, x, y), z))
  {
    var toks := [a, SignOf(p), b, SignOf(q), c];
    hide ParsePrefix, OperandOf, SignOf, Tighter, Prec, InfixPrec, InfixOp, Fold, ParseExpr;
    TighterIsMore(q, p);
    TighterIsMore(q, q);
    OperandParses(toks, 0, LOWEST);
    EndBinds(toks);
    if Tighter(q, p) { TighterLast(toks, p, q); } else { TighterFirst(toks, p, q); }
  }

  /** Five tokens: operands and, between them, p and q. */
  predicate AreThree(toks: seq<Token>, p: Op, q: Op) {
    && |toks| == 5 && IsOperand(toks[0]) && IsOperand(toks[2]) && IsOperand(toks[4])
    && IsInfixOp(p) && IsInfixOp(q) && toks[1] == SignOf(p) && toks[3] == SignOf(q)
  }

  lemma TighterLast(toks: seq<Token>, p: Op, q: Op)
    requires AreThree(toks, p, q) && Prec(q) > Prec(p)
    ensures var x, y, z := OperandOf(toks[0]), OperandOf(toks[2]), OperandOf(toks[4]);
            Fold(toks, 1, LOWEST, x, false) == Some((Binary(p, x, Binary(q, y, z)), 5))
  {
    var x, y, z := OperandOf(toks[0]), OperandOf(toks[2]), OperandOf(toks[4]);
    hide ParsePrefix, OperandOf, SignOf, Prec, InfixPrec, InfixOp, Fold, ParseExpr;
    TighterIsMore(p, p);
    EndBinds(toks);
    OperandParses(toks, 2, Prec(p));
    OperandParses(toks, 4, Prec(q));
    FoldsNone(toks, 5, Prec(q), z, false);
    FoldsOne(toks, 3, Prec(p), y, false, q);
    FoldsNone(toks, 5, Prec(p), Binary(q, y, z), Prec(q) == COMPARE);
    FoldsOne(toks, 1, LOWEST, x, false, p);
    FoldsNone(toks, 5, LOWEST, Binary(p, x, Binary(q, y, z)), Prec(p) == COMPARE);
  }

  lemma TighterFirst(toks: seq<Token>, p: Op, q: Op)
    requires AreThree(toks, p, q) && Prec(q) <= Prec(p)
    ensures var x, y, z := OperandOf(toks[0]), OperandOf(toks[2]), OperandOf(toks[4]);
            Fold(toks, 1, LOWEST, x, false) == if Prec(p) == Prec(q) == COMPARE then None
                                               else Some((Binary(q, Binary(p, x, y), z), 5))
  {
    var x, y, z := OperandOf(toks[0]), OperandOf(toks[2]), OperandOf(toks[4]);
    hide ParsePrefix, OperandOf, SignOf, Prec, InfixPrec, InfixOp, Fold, ParseExpr;
    TighterIsMore(p, p);
    TighterIsMore(q, q);
    SignBinds(toks, 3, q);
    EndBinds(toks);
    OperandParses(toks, 2, Prec(p));
    FoldsNone(toks, 3, Prec(p), y, false);
    FoldsOne(toks, 1, LOWEST, x, false, p);
    if Prec(p) == Prec(q) == COMPARE {
      FoldsChain(toks, 3, LOWEST, Binary(p, x, y));
    } else {
      OperandParses(toks, 4, Prec(q));
      FoldsNone(toks, 5, Prec(q), z, false);
      FoldsOne(toks, 3, LOWEST, Binary(p, x, y), Prec(p) == COMPARE, q);
      FoldsNone(toks, 5, LOWEST, Binary(q, Binary(p, x, y), z), Prec(q) == COMPARE);
    }
  }

  lemma EndBinds(toks: seq<Token>)
    ensures InfixPrec(toks, |toks|) == LOWEST && Peek(toks, |toks|).EndOfLine?
  {}

  lemma FoldsChain(toks: seq<Token>, k: nat, min: nat, x: Expr)
    requires k <= |toks| && InfixPrec(toks, k) == COMPARE > min
    ensures Fold(toks, k, min, x, true) == None
  {}

  /** A not takes everything up to the next and or or; a minus only what stands next to it. */
  lemma PrefixReaches(a: Token, p: Op, b: Token)
    requires IsOperand(a) && IsOperand(b) && IsInfixOp(p)
    ensures var x, y := OperandOf(a), OperandOf(b);
            && Parse([NotTok, a, SignOf(p), b])
               == Some(if p == Or || p == And then Binary(p, Unary(Not, x), y) else Unary(Not, Binary(p, x, y)))
            && Parse([OpTok(Sub), a, SignOf(p), b]) == Some(Binary(p, Unary(Neg, x), y))
  {
    var x, y := OperandOf(a), OperandOf(b);
    PrefixFolds(NotTok, Not, a, p, b);
    PrefixFolds(OpTok(Sub), Neg, a, p, b);
    TighterIsMore(p, p);
  }

  lemma PrefixFolds(t: Token, op: Op, a: Token, p: Op, b: Token)
    requires (t == NotTok && op == Not) || (t == OpTok(Sub) && op == Neg)
    requires IsOperand(a) && IsOperand(b) && IsInfixOp(p)
    ensures var x, y := OperandOf(a), OperandOf(b);
            Parse([t, a, SignOf(p), b])
            == Some(if Prec(p) > Prec(op) then Unary(op, Binary(p, x, y)) else Binary(p, Unary(op, x), y))
  {
    var toks := [t, a, SignOf(p), b];
    var x, y := OperandOf(a), OperandOf(b);
    hide ParsePrefix, OperandOf, SignOf, Prec, InfixPrec, InfixOp, Fold;
    TighterIsMore(p, p);
    SignBinds(toks, 2, p);
    EndBinds(toks);
    OperandParses(toks, 1, Prec(op));
    OperandParses(toks, 3, Prec(p));
    hide ParseExpr;
    FoldsNone(toks, 4, Prec(p), y, false);
    if Prec(p) > Prec(op) {
      FoldsOne(toks, 2, Prec(op), x, false, p);
      FoldsNone(toks, 4, Prec(op), Binary(p, x, y), Prec(p) == COMPARE);
      PrefixParses(toks, op);
      FoldsNone(toks, 4, LOWEST, Unary(op, Binary(p, x, y)), false);
    } else {
      FoldsNone(toks, 2, Prec(op), x, false);
      PrefixParses(toks, op);
      FoldsOne(toks, 2, LOWEST, Unary(op, x), false, p);
      FoldsNone(toks, 4, LOWEST, Binary(p, Unary(op, x), y), Prec(p) == COMPARE);
    }
  }

  lemma PrefixParses(toks: seq<Token>, op: Op)
    requires |toks| > 1 && !toks[1].EndOfLine?
    requires (toks[0] == NotTok && op == Not) || (toks[0] == OpTok(Sub) && op == Neg)
    requires ParseExpr(toks, 1, Prec(op)).Some?
    ensures var (x, j) := ParseExpr(toks, 1, Prec(op)).value;
            ParseExpr(toks, 0, LOWEST) == Fold(toks, j, LOWEST, Unary(op, x), false)
  {
    hide Fold, Prec;
    var (x, j) := ParseExpr(toks, 1, Prec(op)).value;
    assert ParseOperand(toks, 0, op) == Some((Unary(op, x), j));
    assert ParsePrefix(toks, 0) == Some((Unary(op, x), j));
  }

  /** After a list the loop goes on with any operator but a comparison: a membership test becomes the left operand even
  of arithmetic, although arithmetic binds tighter than in. */
  lemma TestsStandBare(a: Token, list: string, p: Op, b: Token)
    requires IsOperand(a) && IsOperand(b) && IsInfixOp(p)
    ensures var x, y := OperandOf(a), OperandOf(b);
            Parse([a, InTok, ListTok(list), SignOf(p), b])
            == if IsComparison(p) then None else Some(Binary(p, In(x, ListRef(list)), y))
  {
    var toks := [a, InTok, ListTok(list), SignOf(p), b];
    var x, y := OperandOf(a), OperandOf(b);
    var e := In(x, ListRef(list));
    assert ParseList(toks, 2) == Some((ListRef(list), 3));
    assert InfixPrec(toks, 1) == COMPARE;
    hide ParsePrefix, OperandOf, SignOf, Prec, InfixPrec, InfixOp, ParseList;
    TighterIsMore(p, p);
    SignBinds(toks, 3, p);
    EndBinds(toks);
    OperandParses(toks, 0, LOWEST);
    assert Fold(toks, 1, LOWEST, x, false) == Fold(toks, 3, LOWEST, e, true);
    OperandParses(toks, 4, Prec(p));
    hide Fold, ParseExpr;
    FoldsNone(toks, 5, Prec(p), y, false);
    if IsComparison(p) {
      FoldsChain(toks, 3, LOWEST, e);
    } else {
      FoldsOne(toks, 3, LOWEST, e, true, p);
      FoldsNone(toks, 5, LOWEST, Binary(p, e, y), Prec(p) == COMPARE);
    }
  }
}
