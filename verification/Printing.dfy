/** The printer, at the level of tokens: an operand that binds looser than its place allows is enclosed
(internal/rules/printer.go). Parsing what it prints gives the tree back. */
module Printing {
  import opened Domain
  import opened Syntax
  import opened Parsing

  function OpToken(op: Op): Token {
    match op
    case Or => OrTok
    case And => AndTok
    case Not => NotTok
    case Neg => OpTok(Sub)
    case _ => OpTok(op)
  }

  /** The lowest binding power a left operand may have without parentheses: comparisons do not chain. */
  function LeftMin(op: Op): nat { if Prec(op) == COMPARE then COMPARE + 1 else Prec(op) }

  function Print(e: Expr): seq<Token>
    decreases e, 0
  {
    match e
    case Attr(name) => [AttrTok(name)]
    case NumberLit(v) => [NumberTok(v)]
    case StringLit(s) => [StringTok(s)]
    case BoolLit(b) => [if b then TrueTok else FalseTok]
    case Unary(op, x) => [OpToken(op)] + Operand(x, Prec(op))
    case Binary(op, x, y) => Operand(x, LeftMin(op)) + [OpToken(op)] + Operand(y, Prec(op) + 1)
    case In(x, list) => Operand(x, COMPARE + 1) + [InTok] + Print(list)
    case Call(name, args) => [Ident(name), LParen] + Several(args) + [RParen]
    case ListRef(name) => [ListTok(name)]
    case ListLit(items) => [LBrack] + Several(items) + [RBrack]
  }

  /** A part's tokens: enclosed exactly when its binding power is below what its place needs. */
  function Operand(e: Expr, min: nat): seq<Token>
    decreases e, 1
  {
    if ExprPrec(e) < min then [LParen] + Print(e) + [RParen] else Print(e)
  }

  function Several(es: seq<Expr>): seq<Token>
    decreases es
  {
    if es == [] then []
    else if |es| == 1 then Print(es[0])
    else Print(es[0]) + [Comma] + Several(es[1..])
  }

  // ---- what stands at a place ---------------------------------------------------------

  /** From i on the line reads part. */
  predicate Reads(toks: seq<Token>, i: nat, part: seq<Token>) { i + |part| <= |toks| && toks[i..i + |part|] == part }

  lemma ReadsBoth(toks: seq<Token>, i: nat, a: seq<Token>, b: seq<Token>)
    requires Reads(toks, i, a + b)
    ensures Reads(toks, i, a) && Reads(toks, i + |a|, b)
  {
    var part := toks[i..i + |a + b|];
    assert part[..|a|] == a && part[|a|..] == b;
    assert toks[i..i + |a|] == part[..|a|] && toks[i + |a|..i + |a| + |b|] == part[|a|..];
  }

  lemma ReadsOne(toks: seq<Token>, i: nat, t: Token)
    requires Reads(toks, i, [t])
    ensures i < |toks| && toks[i] == t && Peek(toks, i) == t
  {
    assert toks[i..i + 1][0] == t;
  }

  /** A line that reads a, one token and then c. */
  lemma ReadsAround(toks: seq<Token>, i: nat, a: seq<Token>, t: Token, c: seq<Token>)
    requires Reads(toks, i, a + [t] + c)
    ensures Reads(toks, i, a) && Reads(toks, i + |a| + 1, c)
    ensures i + |a| < |toks| && Peek(toks, i + |a|) == t
  {
    ReadsBoth(toks, i, a + [t], c);
    ReadsBoth(toks, i, a, [t]);
    ReadsOne(toks, i + |a|, t);
    hide Reads;
  }

  /** A token and then c. */
  lemma ReadsAfter(toks: seq<Token>, i: nat, t: Token, c: seq<Token>)
    requires Reads(toks, i, [t] + c)
    ensures i < |toks| && Peek(toks, i) == t && Reads(toks, i + 1, c)
  {
    ReadsBoth(toks, i, [t], c);
    ReadsOne(toks, i, t);
    hide Reads;
  }

  /** The tree binds tighter than min, or starts with a prefix operator or an atom. */
  predicate Bare(e: Expr, min: nat) { e.Binary? || e.In? ==> ExprPrec(e) > min }

  /** The last thing folded was a comparison. */
  predicate Compares(e: Expr) { e.In? || (e.Binary? && Prec(e.op) == COMPARE) }

  lemma {:induction false} PrintsSomething(e: Expr)
    ensures Print(e) != []
  {}

  // ---- lists ------------------------------------------------------------------------

  lemma NegativePrints(v: real)
    ensures Print(Unary(Neg, NumberLit(v))) == [OpTok(Sub), NumberTok(v)]
  {
    assert Operand(NumberLit(v), UNARY) == [NumberTok(v)];
  }

  lemma ItemParses(toks: seq<Token>, i: nat, e: Expr)
    requires IsItem(e) && Reads(toks, i, Print(e))
    ensures ParseItem(toks, i) == Some((e, i + |Print(e)|))
  {
    match e
    case Unary(_, _) =>
      NegativePrints(e.x.num);
      assert [OpTok(Sub), NumberTok(e.x.num)] == [OpTok(Sub)] + [NumberTok(e.x.num)];
      ReadsAfter(toks, i, OpTok(Sub), [NumberTok(e.x.num)]);
      ReadsOne(toks, i + 1, NumberTok(e.x.num));
    case StringLit(s) => ReadsOne(toks, i, StringTok(s));
    case NumberLit(v) => ReadsOne(toks, i, NumberTok(v));
  }

  lemma SeveralOne(es: seq<Expr>, end: Token)
    requires |es| == 1
    ensures Several(es) + [end] == Print(es[0]) + [end] + [] && |Several(es)| == |Print(es[0])|
  {
    hide Print;
  }

  lemma SeveralMore(es: seq<Expr>, end: Token)
    requires |es| > 1
    ensures Several(es) + [end] == Print(es[0]) + [Comma] + (Several(es[1..]) + [end])
    ensures |Several(es)| == |Print(es[0])| + 1 + |Several(es[1..])|
  {
    hide Print;
  }

  lemma {:induction false} ItemsParse(toks: seq<Token>, i: nat, items: seq<Expr>)
    requires items != [] && (forall k :: 0 <= k < |items| ==> IsItem(items[k]))
    requires Reads(toks, i, Several(items) + [RBrack])
    ensures ParseItems(toks, i) == Some((items, i + |Several(items)| + 1))
    decreases |items|
  {
    hide IsItem, ParseItem, Print, Several, Reads;
    var e := items[0];
    if |items| == 1 {
      SeveralOne(items, RBrack);
      ReadsAround(toks, i, Print(e), RBrack, []);
      ItemParses(toks, i, e);
      assert [e] == items;
    } else {
      var rest := items[1..];
      SeveralMore(items, RBrack);
      ReadsAround(toks, i, Print(e), Comma, Several(rest) + [RBrack]);
      ItemParses(toks, i, e);
      ItemsParse(toks, i + |Print(e)| + 1, rest);
      assert [e] + rest == items;
    }
  }

  lemma NotEmptyList(toks: seq<Token>, i: nat)
    requires ParseItems(toks, i).Some?
    ensures !Peek(toks, i).RBrack?
  {}

  lemma ListLitPrints(items: seq<Expr>)
    ensures Print(ListLit(items)) == [LBrack] + (Several(items) + [RBrack])
  {}

  lemma ListParses(toks: seq<Token>, i: nat, list: Expr)
    requires IsList(list) && Reads(toks, i, Print(list))
    ensures ParseList(toks, i) == Some((list, i + |Print(list)|))
  {
    hide IsItem, ParseItems, Several, Reads;
    if list.ListRef? {
      ReadsOne(toks, i, ListTok(list.name));
    } else {
      ListLitPrints(list.items);
      ReadsAfter(toks, i, LBrack, Several(list.items) + [RBrack]);
      ItemsParse(toks, i + 1, list.items);
      NotEmptyList(toks, i + 1);
    }
  }

  // ---- one turn of the parser ------------------------------------------------------------

  /** An operator that binds tighter than min takes the operand after it. */
  lemma Folds(toks: seq<Token>, k: nat, min: nat, x: Expr, compared: bool, op: Op, y: Expr, m: nat)
    requires k < |toks| && op != Not && op != Neg && Peek(toks, k) == OpToken(op) && Prec(op) > min
    requires !(Prec(op) == COMPARE && compared) && !Peek(toks, k + 1).EndOfLine?
    requires ParseExpr(toks, k + 1, Prec(op)) == Some((y, m))
    ensures m <= |toks| && Fold(toks, k, min, x, compared) == Fold(toks, m, min, Binary(op, x, y), Prec(op) == COMPARE)
  {
    hide ParseExpr;
  }

  lemma FoldsIn(toks: seq<Token>, k: nat, min: nat, x: Expr, list: Expr, m: nat)
    requires k < |toks| && Peek(toks, k) == InTok && COMPARE > min && ParseList(toks, k + 1) == Some((list, m))
    ensures m <= |toks| && Fold(toks, k, min, x, false) == Fold(toks, m, min, In(x, list), true)
  {
    hide ParseList, ParseExpr;
  }

  lemma Stops(toks: seq<Token>, m: nat, min: nat, e: Expr, compared: bool)
    requires m <= |toks| && InfixPrec(toks, m) <= min
    ensures Fold(toks, m, min, e, compared) == Some((e, m))
  {
    hide ParseExpr, ParseList;
  }

  // ---- conditions ----------------------------------------------------------------------

  /** The parser, started on a printed tree, folds exactly that tree and goes on after it: what follows
  binds no tighter than the tree does. */
  lemma {:induction false} Absorbs(toks: seq<Token>, i: nat, e: Expr, min: nat)
    requires IsLine(toks) && Plain(e) && Reads(toks, i, Print(e)) && Bare(e, min)
    requires InfixPrec(toks, i + |Print(e)|) <= ExprPrec(e)
    ensures i + |Print(e)| <= |toks| && ParseExpr(toks, i, min) == Fold(toks, i + |Print(e)|, min, e, Compares(e))
    decreases e, 1
  {
    hide Fold, InfixPrec;
    match e
    case Attr(name) => ReadsOne(toks, i, AttrTok(name));
    case NumberLit(v) => ReadsOne(toks, i, NumberTok(v));
    case StringLit(s) => ReadsOne(toks, i, StringTok(s));
    case BoolLit(b) => ReadsOne(toks, i, if b then TrueTok else FalseTok);
    case Unary(_, _) => UnaryAbsorbs(toks, i, e);
    case Binary(_, _, _) => BinaryAbsorbs(toks, i, e, min);
    case In(_, _) => InAbsorbs(toks, i, e, min);
    case Call(_, _) => CallAbsorbs(toks, i, e);
  }

  lemma OperandInParens(e: Expr, bare: nat)
    requires ExprPrec(e) < bare
    ensures Operand(e, bare) == [LParen] + (Print(e) + [RParen] + [])
  {
    hide Print;
  }

  lemma {:induction false} OperandAbsorbs(toks: seq<Token>, i: nat, e: Expr, bare: nat, min: nat)
    requires IsLine(toks) && Plain(e) && Reads(toks, i, Operand(e, bare))
    requires ExprPrec(e) >= bare ==> Bare(e, min) && InfixPrec(toks, i + |Operand(e, bare)|) <= ExprPrec(e)
    ensures i < i + |Operand(e, bare)| <= |toks|
    ensures ParseExpr(toks, i, min) == Fold(toks, i + |Operand(e, bare)|, min, e, ExprPrec(e) >= bare && Compares(e))
    decreases e, 2
  {
    hide Reads, Print, Fold, IsLine, Plain;
    PrintsSomething(e);
    if ExprPrec(e) >= bare {
      Absorbs(toks, i, e, min);
    } else {
      OperandInParens(e, bare);
      ReadsAfter(toks, i, LParen, Print(e) + [RParen] + []);
      ReadsAround(toks, i + 1, Print(e), RParen, []);
      var k := i + 1 + |Print(e)|;
      Absorbs(toks, i + 1, e, LOWEST);
      Stops(toks, k, LOWEST, e, Compares(e));
      GroupParses(toks, i, e, k);
    }
  }

  lemma GroupParses(toks: seq<Token>, i: nat, e: Expr, k: nat)
    requires i < |toks| && Peek(toks, i) == LParen && ParseExpr(toks, i + 1, LOWEST) == Some((e, k))
    requires Peek(toks, k) == RParen
    ensures ParsePrefix(toks, i) == Some((e, k + 1))
  {
    hide ParseExpr;
  }

  lemma PrefixParses(toks: seq<Token>, i: nat, op: Op, x: Expr, k: nat)
    requires i < |toks| && (op == Not || op == Neg) && Peek(toks, i) == OpToken(op) && !Peek(toks, i + 1).EndOfLine?
    requires ParseExpr(toks, i + 1, Prec(op)) == Some((x, k))
    ensures ParsePrefix(toks, i) == Some((Unary(op, x), k))
  {
    hide ParseExpr;
  }

  lemma UnaryPrints(e: Expr)
    requires e.Unary?
    ensures Print(e) == [OpToken(e.op)] + Operand(e.x, Prec(e.op))
  {}

  lemma {:induction false} UnaryAbsorbs(toks: seq<Token>, i: nat, e: Expr)
    requires IsLine(toks) && e.Unary? && Plain(e) && Reads(toks, i, Print(e))
    requires InfixPrec(toks, i + |Print(e)|) <= ExprPrec(e)
    ensures ParsePrefix(toks, i) == Some((e, i + |Print(e)|))
    decreases e, 0
  {
    hide Reads, Print, Operand, Fold, IsLine, InfixPrec;
    var x := Operand(e.x, Prec(e.op));
    UnaryPrints(e);
    ReadsAfter(toks, i, OpToken(e.op), x);
    OperandAbsorbs(toks, i + 1, e.x, Prec(e.op), Prec(e.op));
    LineGoesOn(toks, i + 1);
    var k := i + 1 + |x|;
    Stops(toks, k, Prec(e.op), e.x, ExprPrec(e.x) >= Prec(e.op) && Compares(e.x));
    PrefixParses(toks, i, e.op, e.x, k);
  }

  lemma LineGoesOn(toks: seq<Token>, i: nat)
    requires IsLine(toks) && i < |toks|
    ensures !Peek(toks, i).EndOfLine?
  {}

  lemma BinaryPrints(e: Expr)
    requires e.Binary?
    ensures Print(e) == Operand(e.x, LeftMin(e.op)) + [OpToken(e.op)] + Operand(e.y, Prec(e.op) + 1)
  {}

  lemma OperatorBinds(toks: seq<Token>, k: nat, op: Op)
    requires op != Not && op != Neg && Peek(toks, k) == OpToken(op)
    ensures InfixPrec(toks, k) == Prec(op)
  {}

  lemma {:induction false} BinaryAbsorbs(toks: seq<Token>, i: nat, e: Expr, min: nat)
    requires IsLine(toks) && e.Binary? && Plain(e) && Reads(toks, i, Print(e)) && Prec(e.op) > min
    requires InfixPrec(toks, i + |Print(e)|) <= Prec(e.op)
    ensures i + |Print(e)| <= |toks| && ParseExpr(toks, i, min) == Fold(toks, i + |Print(e)|, min, e, Compares(e))
    decreases e, 0
  {
    hide Reads, Print, Operand, Fold, IsLine, InfixPrec, ParseExpr;
    var p := Prec(e.op);
    var x, y := Operand(e.x, LeftMin(e.op)), Operand(e.y, p + 1);
    BinaryPrints(e);
    ReadsAround(toks, i, x, OpToken(e.op), y);
    var k := i + |x|;
    var m := k + 1 + |y|;
    assert i + |Print(e)| == m;
    OperatorBinds(toks, k, e.op);
    OperandAbsorbs(toks, i, e.x, LeftMin(e.op), min);
    OperandAbsorbs(toks, k + 1, e.y, p + 1, p);
    LineGoesOn(toks, k + 1);
    Stops(toks, m, p, e.y, ExprPrec(e.y) >= p + 1 && Compares(e.y));
    Folds(toks, k, min, e.x, ExprPrec(e.x) >= LeftMin(e.op) && Compares(e.x), e.op, e.y, m);
  }

  lemma InPrints(e: Expr)
    requires e.In?
    ensures Print(e) == Operand(e.x, COMPARE + 1) + [InTok] + Print(e.list)
  {}

  lemma InBinds(toks: seq<Token>, k: nat)
    requires Peek(toks, k) == InTok
    ensures InfixPrec(toks, k) == COMPARE
  {}

  lemma {:induction false} InAbsorbs(toks: seq<Token>, i: nat, e: Expr, min: nat)
    requires IsLine(toks) && e.In? && Plain(e) && Reads(toks, i, Print(e)) && COMPARE > min
    ensures i + |Print(e)| <= |toks| && ParseExpr(toks, i, min) == Fold(toks, i + |Print(e)|, min, e, Compares(e))
    decreases e, 0
  {
    hide Reads, Print, Operand, Fold, IsLine, InfixPrec, ParseExpr, IsList;
    var x := Operand(e.x, COMPARE + 1);
    InPrints(e);
    ReadsAround(toks, i, x, InTok, Print(e.list));
    var k := i + |x|;
    InBinds(toks, k);
    OperandAbsorbs(toks, i, e.x, COMPARE + 1, min);
    ListParses(toks, k + 1, e.list);
    FoldsIn(toks, k, min, e.x, e.list, k + 1 + |Print(e.list)|);
  }

  lemma SeparatorsStop(toks: seq<Token>, k: nat)
    requires Peek(toks, k) == Comma || Peek(toks, k) == RParen || Peek(toks, k) == EndOfLine
    ensures InfixPrec(toks, k) == LOWEST
  {}

  /** One argument, up to the comma or parenthesis after it. */
  lemma {:induction false} ArgParses(toks: seq<Token>, i: nat, e: Expr)
    requires IsLine(toks) && Plain(e) && Reads(toks, i, Print(e)) && InfixPrec(toks, i + |Print(e)|) == LOWEST
    ensures i < i + |Print(e)| <= |toks| && ParseExpr(toks, i, LOWEST) == Some((e, i + |Print(e)|))
    decreases e, 2
  {
    hide Reads, Print, Fold, IsLine, InfixPrec, ParseExpr, Plain;
    PrintsSomething(e);
    Absorbs(toks, i, e, LOWEST);
    Stops(toks, i + |Print(e)|, LOWEST, e, Compares(e));
  }

  lemma {:induction false} ArgsParse(toks: seq<Token>, i: nat, args: seq<Expr>)
    requires IsLine(toks) && args != [] && (forall k :: 0 <= k < |args| ==> Plain(args[k]))
    requires Reads(toks, i, Several(args) + [RParen])
    ensures i < |toks| && ParseArgs(toks, i) == Some((args, i + |Several(args)| + 1))
    decreases args, 3
  {
    hide Reads, Plain, Print, Several, IsLine, InfixPrec, ParseExpr;
    var e := args[0];
    if |args| == 1 {
      SeveralOne(args, RParen);
      ReadsAround(toks, i, Print(e), RParen, []);
      SeparatorsStop(toks, i + |Print(e)|);
      ArgParses(toks, i, e);
      assert [e] == args;
    } else {
      var rest := args[1..];
      SeveralMore(args, RParen);
      ReadsAround(toks, i, Print(e), Comma, Several(rest) + [RParen]);
      SeparatorsStop(toks, i + |Print(e)|);
      ArgParses(toks, i, e);
      ArgsParse(toks, i + |Print(e)| + 1, rest);
      assert [e] + rest == args;
    }
  }

  lemma CallPrints(e: Expr)
    requires e.Call?
    ensures Print(e) == [Ident(e.name)] + ([LParen] + (Several(e.args) + [RParen]))
  {}

  lemma {:induction false} CallAbsorbs(toks: seq<Token>, i: nat, e: Expr)
    requires IsLine(toks) && e.Call? && Plain(e) && Reads(toks, i, Print(e))
    ensures ParsePrefix(toks, i) == Some((e, i + |Print(e)|))
    decreases e, 0
  {
    hide Reads, Print, ParseArgs, IsLine;
    CallPrints(e);
    ReadsAfter(toks, i, Ident(e.name), [LParen] + (Several(e.args) + [RParen]));
    ReadsAfter(toks, i + 1, LParen, Several(e.args) + [RParen]);
    if e.args == [] {
      assert Several(e.args) + [RParen] == [RParen];
      ReadsOne(toks, i + 2, RParen);
    } else {
      ArgsParse(toks, i + 2, e.args);
      NotClosed(toks, i + 2);
    }
  }

  /** A call with arguments does not read as one without. */
  lemma NotClosed(toks: seq<Token>, i: nat)
    requires i < |toks| && ParseArgs(toks, i).Some?
    ensures !Peek(toks, i).RParen?
  {
    assert ParseExpr(toks, i, LOWEST).Some?;
    assert ParsePrefix(toks, i).Some?;
  }

  // ---- the round trip ---------------------------------------------------------------------

  lemma {:induction false} SeveralLine(es: seq<Expr>)
    requires forall k :: 0 <= k < |es| ==> IsLine(Print(es[k]))
    ensures IsLine(Several(es))
    decreases |es|
  {
    hide Print;
    if |es| > 1 { SeveralLine(es[1..]); }
  }

  lemma LineBoth(a: seq<Token>, b: seq<Token>)
    requires IsLine(a) && IsLine(b)
    ensures IsLine(a + b)
  {}

  lemma OneTokenLine(t: Token)
    requires !t.EndOfLine? && (t.OpTok? ==> IsSymbol(t.op)) && (t.NumberTok? ==> t.num >= 0.0)
    ensures IsLine([t])
  {}

  lemma OperandLine(e: Expr, bare: nat)
    requires IsLine(Print(e))
    ensures IsLine(Operand(e, bare))
  {
    hide Print;
    if ExprPrec(e) < bare { OperandInParens(e, bare); }
  }

  lemma {:induction false} PrintsLine(e: Expr)
    requires Plain(e) || IsList(e) || IsItem(e)
    ensures IsLine(Print(e))
    decreases e, 1
  {
    hide IsLine, Several;
    match e
    case Unary(op, x) =>
      PrintsLine(x);
      OperandLine(x, Prec(op));
      OneTokenLine(OpToken(op));
      LineBoth([OpToken(op)], Operand(x, Prec(op)));
    case Binary(_, _, _) => BinaryLine(e);
    case In(_, _) => InLine(e);
    case Call(name, args) =>
      forall k | 0 <= k < |args| ensures IsLine(Print(args[k])) { PrintsLine(args[k]); }
      SeveralLine(args);
      CallLine(e);
    case ListLit(items) =>
      forall k | 0 <= k < |items| ensures IsLine(Print(items[k])) { PrintsLine(items[k]); }
      SeveralLine(items);
      ListLine(items);
    case Attr(name) => OneTokenLine(AttrTok(name));
    case NumberLit(v) => OneTokenLine(NumberTok(v));
    case StringLit(s) => OneTokenLine(StringTok(s));
    case BoolLit(b) => OneTokenLine(if b then TrueTok else FalseTok);
    case ListRef(name) => OneTokenLine(ListTok(name));
  }

  lemma {:induction false} BinaryLine(e: Expr)
    requires e.Binary? && Plain(e)
    ensures IsLine(Print(e))
    decreases e, 0
  {
    hide IsLine, Print, Operand;
    BinaryPrints(e);
    PrintsLine(e.x);
    PrintsLine(e.y);
    OperandLine(e.x, LeftMin(e.op));
    OperandLine(e.y, Prec(e.op) + 1);
    OneTokenLine(OpToken(e.op));
    LineBoth(Operand(e.x, LeftMin(e.op)), [OpToken(e.op)]);
    LineBoth(Operand(e.x, LeftMin(e.op)) + [OpToken(e.op)], Operand(e.y, Prec(e.op) + 1));
  }

  lemma {:induction false} InLine(e: Expr)
    requires e.In? && Plain(e)
    ensures IsLine(Print(e))
    decreases e, 0
  {
    hide IsLine, Print, Operand, IsList;
    InPrints(e);
    PrintsLine(e.x);
    PrintsLine(e.list);
    OperandLine(e.x, COMPARE + 1);
    OneTokenLine(InTok);
    LineBoth(Operand(e.x, COMPARE + 1), [InTok]);
    LineBoth(Operand(e.x, COMPARE + 1) + [InTok], Print(e.list));
  }

  lemma CallLine(e: Expr)
    requires e.Call? && IsLine(Several(e.args))
    ensures IsLine(Print(e))
  {
    hide Several;
    CallPrints(e);
    hide Print;
  }

  lemma ListLine(items: seq<Expr>)
    requires IsLine(Several(items))
    ensures IsLine(Print(ListLit(items)))
  {
    hide Several;
    ListLitPrints(items);
    hide Print;
  }

  /** Parsing the printed form of a condition gives it back. */
  lemma PrintedParses(e: Expr)
    requires Plain(e)
    ensures Parse(Print(e)) == Some(e)
  {
    hide Print, ParseExpr, Plain, InfixPrec;
    PrintsLine(e);
    var toks := Print(e);
    assert toks[0..0 + |toks|] == toks;
    SeparatorsStop(toks, |toks|);
    ArgParses(toks, 0, e);
  }

  /** Printing what was parsed and parsing it again gives the same tree. */
  lemma ReparsedIsSame(toks: seq<Token>)
    requires IsLine(toks) && Parse(toks).Some?
    ensures Parse(Print(Parse(toks).value)) == Parse(toks)
  {
    hide Parse, Print, Plain;
    ParsedIsMade(toks, t => true);
    PrintedParses(Parse(toks).value);
  }

  /** The parentheses are those precedence asks for, not always the fewest: a prefix operator may stand
  bare as the right operand of a comparison, and the printer still encloses it. */
  lemma NotAlwaysFewest(a: Expr, b: Expr)
    requires a.Attr? && b.Attr?
    ensures var e := Binary(Eq, a, Unary(Not, b));
            var bare := Print(a) + [OpTok(Eq), NotTok] + Print(b);
            Parse(bare) == Some(e) && Print(e) == Print(a) + [OpTok(Eq), LParen, NotTok] + Print(b) + [RParen]
  {
    var toks := [AttrTok(a.name), OpTok(Eq), NotTok, AttrTok(b.name)];
    assert Print(a) + [OpTok(Eq), NotTok] + Print(b) == toks;
    assert ParsePrefix(toks, 3) == Some((b, 4));
    Stops(toks, 4, NOT, b, false);
    assert ParseExpr(toks, 3, NOT) == Some((b, 4));
    assert ParsePrefix(toks, 2) == Some((Unary(Not, b), 4));
    Stops(toks, 4, COMPARE, Unary(Not, b), false);
    assert ParseExpr(toks, 2, COMPARE) == Some((Unary(Not, b), 4));
    Folds(toks, 1, LOWEST, a, false, Eq, Unary(Not, b), 4);
    Stops(toks, 4, LOWEST, Binary(Eq, a, Unary(Not, b)), true);
    assert ParsePrefix(toks, 0) == Some((a, 1));
    assert ParseExpr(toks, 0, LOWEST) == Some((Binary(Eq, a, Unary(Not, b)), 4));
    assert Operand(b, NOT) == Print(b) && Operand(a, COMPARE + 1) == Print(a);
    assert Operand(Unary(Not, b), COMPARE + 1) == [LParen] + ([NotTok] + Print(b)) + [RParen];
  }
}
