/** Places in a condition where the printer writes parentheses, the line without one such pair, and what that line
weighs (internal/rules/printer.go). */
module Places {
  import opened Syntax
  import opened Parsing
  import opened Printing
  import opened Readings

  // ---- places in a tree ------------------------------------------------------------------------

  /** From a tree to a part of it: the left side, the right side or a prefix operator's operand, or an argument. */
  datatype Turn = First | Last | Arg(n: nat)

  predicate HasPart(e: Expr, turn: Turn) {
    match turn
    case First => Infix(e)
    case Last => e.Binary? || e.Unary?
    case Arg(n) => e.Call? && n < |e.args|
  }

  function Part(e: Expr, turn: Turn): Expr
    requires HasPart(e, turn)
  {
    match turn
    case First => e.x
    case Last => if e.Binary? then e.y else e.x
    case Arg(n) => e.args[n]
  }

  /** The binding power below which the printer encloses the part. */
  function Needs(e: Expr, turn: Turn): nat
    requires HasPart(e, turn)
  {
    match turn
    case First => if e.Binary? then LeftMin(e.op) else COMPARE + 1
    case Last => if e.Binary? then Prec(e.op) + 1 else Prec(e.op)
    case Arg(_) => LOWEST
  }

  predicate Enclosed(e: Expr, turn: Turn)
    requires HasPart(e, turn)
  {
    ExprPrec(Part(e, turn)) < Needs(e, turn)
  }

  /** The path leads to a part that the printer encloses. */
  predicate EnclosedAt(e: Expr, path: seq<Turn>)
    decreases |path|
  {
    && path != [] && HasPart(e, path[0])
    && if |path| == 1 then Enclosed(e, path[0]) else EnclosedAt(Part(e, path[0]), path[1..])
  }

  /** The printed tree with this text where a part's own would stand. */
  function With(e: Expr, turn: Turn, text: seq<Token>): seq<Token>
    requires HasPart(e, turn)
  {
    match turn
    case First => text + [OperatorOf(e)] + Rest(e)
    case Last => if e.Binary? then Operand(e.x, LeftMin(e.op)) + [OpToken(e.op)] + text else [OpToken(e.op)] + text
    case Arg(n) => [Ident(e.name)] + ([LParen] + (SeveralWith(e.args, n, text) + [RParen]))
  }

  /** What stands after the operator of an infix tree. */
  function Rest(e: Expr): seq<Token>
    requires Infix(e)
  {
    if e.In? then Print(e.list) else Operand(e.y, Prec(e.op) + 1)
  }

  function SeveralWith(es: seq<Expr>, n: nat, text: seq<Token>): seq<Token>
    requires n < |es|
  {
    if n > 0 then Print(es[0]) + [Comma] + SeveralWith(es[1..], n - 1, text)
    else if |es| == 1 then text
    else text + [Comma] + Several(es[1..])
  }

  function Wrapped(enclosed: bool, text: seq<Token>): seq<Token>
  {
    if enclosed then [LParen] + (text + [RParen] + []) else text
  }

  /** The printed tree without the one pair of parentheses around the part the path leads to. */
  function Bared(e: Expr, path: seq<Turn>): seq<Token>
    requires EnclosedAt(e, path)
    decreases |path|, 1
  {
    With(e, path[0], PartText(e, path))
  }

  function PartText(e: Expr, path: seq<Turn>): seq<Token>
    requires EnclosedAt(e, path)
    decreases |path|, 0
  {
    if |path| == 1 then Print(Part(e, path[0]))
    else Wrapped(Enclosed(e, path[0]), Bared(Part(e, path[0]), path[1..]))
  }

  /** The pair around this part is spare: it encloses a not at the end of its tree, and nothing after the tree binds
  tighter than a not; or a membership test to the left of an arithmetic operator, where the parser still folds one.
  min is the binding power the parser looks above where the tree starts, after that of what follows the tree. */
  predicate SpareHere(e: Expr, turn: Turn, min: nat, after: nat)
    requires HasPart(e, turn)
  {
    match turn
    case First => e.x.In? && ExprPrec(e) > COMPARE && min < COMPARE
    case Last => Part(e, turn).Unary? && after <= NOT
    case Arg(_) => false
  }

  /** What the parser looks above where the part starts. */
  function PartMin(e: Expr, turn: Turn, min: nat): nat
    requires HasPart(e, turn)
  {
    if Enclosed(e, turn) || turn.Arg? then LOWEST else if turn.First? then min else Prec(e.op)
  }

  /** How tight what follows the part binds. */
  function PartAfter(e: Expr, turn: Turn, after: nat): nat
    requires HasPart(e, turn)
  {
    if Enclosed(e, turn) || turn.Arg? then LOWEST else if turn.First? then ExprPrec(e) else after
  }

  /** The pair the path leads to is spare. */
  predicate Spare(e: Expr, path: seq<Turn>, min: nat, after: nat)
    requires EnclosedAt(e, path)
    decreases |path|
  {
    var turn := path[0];
    if |path| == 1 then SpareHere(e, turn, min, after)
    else Spare(Part(e, turn), path[1..], PartMin(e, turn, min), PartAfter(e, turn, after))
  }

  // ---- the printed text, in pieces ----------------------------------------------------------------

  lemma WithItsOwn(e: Expr, turn: Turn)
    requires HasPart(e, turn)
    ensures With(e, turn, Operand(Part(e, turn), Needs(e, turn))) == Print(e)
  {
    match turn
    case First =>
    case Last =>
    case Arg(n) =>
      SeveralWithItsOwn(e.args, n);
      CallPrints(e);
  }

  lemma {:induction false} SeveralWithItsOwn(es: seq<Expr>, n: nat)
    requires n < |es|
    ensures SeveralWith(es, n, Print(es[n])) == Several(es)
    decreases n
  {
    if n > 0 { SeveralWithItsOwn(es[1..], n - 1); }
  }

  lemma WrappedOperand(o: Expr, need: nat)
    ensures Operand(o, need) == Wrapped(ExprPrec(o) < need, Print(o))
  {
    if ExprPrec(o) < need { OperandInParens(o, need); }
  }

  lemma PlainPart(e: Expr, turn: Turn)
    requires Plain(e) && HasPart(e, turn)
    ensures Plain(Part(e, turn))
    ensures e.Unary? ==> e.op == Not || e.op == Neg
    ensures e.Binary? ==> e.op != Not && e.op != Neg && Plain(e.x) && Plain(e.y)
    ensures e.In? ==> Plain(e.x) && IsList(e.list)
    ensures e.Call? ==> forall k :: 0 <= k < |e.args| ==> Plain(e.args[k])
  {}

  function OperatorOf(e: Expr): Token
    requires Infix(e)
  {
    if e.In? then InTok else OpToken(e.op)
  }

  /** Where the pieces of a tree's text stand. */
  lemma FirstReads(toks: seq<Token>, i: nat, e: Expr, text: seq<Token>)
    requires Infix(e) && Reads(toks, i, With(e, First, text))
    ensures var k := i + |text|;
            && Reads(toks, i, text) && k < |toks| && Peek(toks, k) == toks[k] == OperatorOf(e)
            && Reads(toks, k + 1, Rest(e))
            && i + |With(e, First, text)| == k + 1 + |Rest(e)|
  {
    hide Reads, Rest;
    ReadsAround(toks, i, text, OperatorOf(e), Rest(e));
  }

  lemma LastReads(toks: seq<Token>, i: nat, e: Expr, text: seq<Token>)
    requires e.Binary? && Reads(toks, i, With(e, Last, text))
    ensures var k := i + |Operand(e.x, LeftMin(e.op))|;
            && Reads(toks, i, Operand(e.x, LeftMin(e.op))) && k < |toks| && Peek(toks, k) == toks[k] == OpToken(e.op)
            && Reads(toks, k + 1, text) && PartAt(e, Last) == k + 1 - i && i + |With(e, Last, text)| == k + 1 + |text|
  {
    hide Reads, Operand;
    ReadsAround(toks, i, Operand(e.x, LeftMin(e.op)), OpToken(e.op), text);
  }

  lemma UnaryReads(toks: seq<Token>, i: nat, e: Expr, text: seq<Token>)
    requires e.Unary? && Reads(toks, i, With(e, Last, text))
    ensures i < |toks| && Peek(toks, i) == toks[i] == OpToken(e.op) && Reads(toks, i + 1, text)
    ensures PartAt(e, Last) == 1 && i + |With(e, Last, text)| == i + 1 + |text|
  {
    hide Reads;
    ReadsAfter(toks, i, OpToken(e.op), text);
  }

  /** How tight a tree binds, by its kind. */
  lemma Shape(e: Expr)
    ensures e.Binary? ==> ExprPrec(e) == Prec(e.op) && Compares(e) == (Prec(e.op) == COMPARE)
                          && LeftMin(e.op) == if Prec(e.op) == COMPARE then COMPARE + 1 else Prec(e.op)
    ensures e.In? ==> ExprPrec(e) == COMPARE && Compares(e)
    ensures e.Unary? ==> ExprPrec(e) == Prec(e.op) && !Compares(e)
    ensures e.Call? ==> !Compares(e)
    ensures Compares(e) ==> ExprPrec(e) == COMPARE
    ensures Infix(e) ==> ExprPrec(e) > LOWEST
    ensures (Infix(e) <==> e.Binary? || e.In?) && ExprPrec(e) >= LOWEST
  {}

  lemma IsBare(e: Expr, min: nat)
    ensures Bare(e, min) <==> (Infix(e) ==> ExprPrec(e) > min)
  {}

  lemma RestIs(e: Expr)
    requires Infix(e)
    ensures e.Binary? ==> Rest(e) == Operand(e.y, Prec(e.op) + 1)
    ensures e.In? ==> Rest(e) == Print(e.list)
  {}

  lemma OperatorIs(e: Expr)
    requires Infix(e)
    ensures OperatorOf(e) == if e.In? then InTok else OpToken(e.op)
  {}

  lemma InParts(e: Expr)
    requires Plain(e) && e.In?
    ensures Infix(e) && Plain(e.x) && IsList(e.list)
  {}

  lemma BinaryParts(e: Expr)
    requires Plain(e) && e.Binary?
    ensures Infix(e) && HasPart(e, Last) && Plain(e.x) && Plain(e.y) && e.op != Not && e.op != Neg
  {}

  lemma UnaryParts(e: Expr)
    requires Plain(e) && e.Unary?
    ensures Plain(e.x) && (e.op == Not || e.op == Neg)
  {}

  lemma CallWithIs(e: Expr, n: nat, text: seq<Token>)
    requires e.Call? && n < |e.args|
    ensures var all := SeveralWith(e.args, n, text);
            && With(e, Arg(n), text) == [Ident(e.name)] + ([LParen] + (all + [RParen]))
            && |With(e, Arg(n), text)| == 3 + |all|
  {
    hide SeveralWith;
  }

  /** The tokens of a call around its arguments. */
  lemma CallTokens(toks: seq<Token>, i: nat, e: Expr, n: nat, text: seq<Token>)
    requires e.Call? && n < |e.args| && Reads(toks, i, With(e, Arg(n), text))
    ensures var all := SeveralWith(e.args, n, text);
            && i + 2 + |all| < |toks| && Peek(toks, i) == toks[i] == Ident(e.name)
            && Peek(toks, i + 1) == toks[i + 1] == LParen
            && Reads(toks, i + 2, all) && Peek(toks, i + 2 + |all|) == toks[i + 2 + |all|] == RParen
            && i + |With(e, Arg(n), text)| == i + 3 + |all|
  {
    var all := SeveralWith(e.args, n, text);
    CallWithIs(e, n, text);
    hide Reads, Print, SeveralWith, With;
    ReadsAfter(toks, i, Ident(e.name), [LParen] + (all + [RParen]));
    ReadsAfter(toks, i + 1, LParen, all + [RParen]);
    ReadsBoth(toks, i + 2, all, [RParen]);
    ReadsOne(toks, i + 2 + |all|, RParen);
  }

  // ---- no "not in" ---------------------------------------------------------------------------------

  /** A stretch of a clean line that may stand between any two others. */
  ghost predicate Tidy(s: seq<Token>) { s != [] && Clean(s) && !s[0].InTok? && !s[|s| - 1].NotTok? }

  predicate GoodToken(t: Token) { !t.EndOfLine? && (t.OpTok? ==> IsSymbol(t.op)) && (t.NumberTok? ==> t.num >= 0.0) }

  lemma TidyOne(t: Token)
    requires GoodToken(t) && !t.InTok? && !t.NotTok?
    ensures Tidy([t])
  {}

  lemma TidyBoth(a: seq<Token>, t: Token, b: seq<Token>)
    requires Tidy(a) && Tidy(b) && GoodToken(t) && !t.NotTok?
    ensures Tidy(a + [t] + b)
  {
    var s := a + [t] + b;
    forall p | 0 <= p < |s| - 1 && s[p].NotTok? ensures !s[p + 1].InTok? {
      if p < |a| { assert s[p] == a[p]; } else if p > |a| { assert s[p] == b[p - |a| - 1] && s[p + 1] == b[p - |a|]; }
    }
  }

  lemma TidyAfter(t: Token, b: seq<Token>)
    requires Tidy(b) && GoodToken(t) && !t.InTok?
    ensures Tidy([t] + b)
  {
    var s := [t] + b;
    forall p | 0 <= p < |s| - 1 && s[p].NotTok? ensures !s[p + 1].InTok? {
      if p > 0 { assert s[p] == b[p - 1] && s[p + 1] == b[p]; }
    }
  }

  lemma TidyBefore(a: seq<Token>, t: Token)
    requires Tidy(a) && GoodToken(t) && !t.NotTok?
    ensures Tidy(a + [t])
  {
    var s := a + [t];
    forall p | 0 <= p < |s| - 1 && s[p].NotTok? ensures !s[p + 1].InTok? {
      assert s[p] == a[p];
    }
  }

  lemma TidyWrapped(enclosed: bool, text: seq<Token>)
    requires Tidy(text)
    ensures Tidy(Wrapped(enclosed, text))
  {
    hide Tidy;
    TidyBefore(text, RParen);
    assert text + [RParen] + [] == text + [RParen];
    TidyAfter(LParen, text + [RParen]);
  }

  lemma {:induction false} SeveralTidy(es: seq<Expr>)
    requires es != [] && forall k :: 0 <= k < |es| ==> Tidy(Print(es[k]))
    ensures Tidy(Several(es))
  {
    hide Tidy, Print;
    if |es| > 1 {
      SeveralTidy(es[1..]);
      TidyBoth(Print(es[0]), Comma, Several(es[1..]));
    }
  }

  lemma {:induction false} SeveralWithTidy(es: seq<Expr>, n: nat, text: seq<Token>)
    requires n < |es| && Tidy(text) && forall k :: 0 <= k < |es| ==> Tidy(Print(es[k]))
    ensures Tidy(SeveralWith(es, n, text))
    decreases n
  {
    hide Tidy, Print;
    if n > 0 {
      SeveralWithTidy(es[1..], n - 1, text);
      TidyBoth(Print(es[0]), Comma, SeveralWith(es[1..], n - 1, text));
    } else if |es| > 1 {
      SeveralTidy(es[1..]);
      TidyBoth(text, Comma, Several(es[1..]));
    }
  }

  lemma OperandTidy(o: Expr, need: nat)
    requires Tidy(Print(o))
    ensures Tidy(Operand(o, need))
  {
    hide Tidy, Print;
    WrappedOperand(o, need);
    TidyWrapped(ExprPrec(o) < need, Print(o));
  }

  /** Putting a tidy text in a tree's part leaves it tidy. */
  lemma WithTidy(e: Expr, turn: Turn, text: seq<Token>)
    requires Plain(e) && HasPart(e, turn) && Tidy(text)
    requires e.Binary? ==> Tidy(Print(e.x)) && Tidy(Print(e.y))
    requires e.In? ==> Tidy(Print(e.list))
    requires e.Call? ==> forall k :: 0 <= k < |e.args| ==> Tidy(Print(e.args[k]))
    ensures Tidy(With(e, turn, text))
  {
    PlainPart(e, turn);
    hide Tidy, Print, Operand, Plain;
    match turn
    case First =>
      if e.In? {
        TidyBoth(text, InTok, Print(e.list));
      } else {
        OperandTidy(e.y, Prec(e.op) + 1);
        TidyBoth(text, OpToken(e.op), Operand(e.y, Prec(e.op) + 1));
      }
    case Last =>
      if e.Binary? {
        OperandTidy(e.x, LeftMin(e.op));
        TidyBoth(Operand(e.x, LeftMin(e.op)), OpToken(e.op), text);
      } else {
        TidyAfter(OpToken(e.op), text);
      }
    case Arg(n) =>
      SeveralWithTidy(e.args, n, text);
      TidyBefore(SeveralWith(e.args, n, text), RParen);
      TidyAfter(LParen, SeveralWith(e.args, n, text) + [RParen]);
      TidyAfter(Ident(e.name), [LParen] + (SeveralWith(e.args, n, text) + [RParen]));
  }

  lemma ItemTidy(e: Expr)
    requires IsItem(e)
    ensures Tidy(Print(e))
  {
    if e.Unary? {
      NegativePrints(e.x.num);
    }
  }

  lemma ListTidy(list: Expr)
    requires IsList(list)
    ensures Tidy(Print(list))
  {
    if list.ListRef? {
      TidyOne(ListTok(list.name));
    } else {
      var items := list.items;
      forall k | 0 <= k < |items| ensures Tidy(Print(items[k])) { ItemTidy(items[k]); }
      hide Tidy;
      SeveralTidy(items);
      ListLitPrints(items);
      TidyBefore(Several(items), RBrack);
      TidyAfter(LBrack, Several(items) + [RBrack]);
    }
  }

  lemma {:induction false} PrintTidy(e: Expr)
    requires Plain(e)
    ensures Tidy(Print(e))
    decreases e
  {
    hide Tidy, Operand;
    match e
    case Unary(op, x) =>
      PrintTidy(x);
      OperandTidy(x, Needs(e, Last));
      WithTidy(e, Last, Operand(x, Needs(e, Last)));
      WithItsOwn(e, Last);
    case Binary(_, x, y) =>
      PrintTidy(x);
      PrintTidy(y);
      OperandTidy(x, Needs(e, First));
      WithTidy(e, First, Operand(x, Needs(e, First)));
      WithItsOwn(e, First);
    case In(x, list) =>
      PrintTidy(x);
      ListTidy(list);
      OperandTidy(x, Needs(e, First));
      WithTidy(e, First, Operand(x, Needs(e, First)));
      WithItsOwn(e, First);
    case Call(name, args) =>
      CallPrints(e);
      if args == [] {
        EmptyCallTidy(name);
        assert Several(args) == [];
      } else {
        forall k | 0 <= k < |args| ensures Tidy(Print(args[k])) { PrintTidy(args[k]); }
        OperandTidy(args[0], LOWEST);
        WithTidy(e, Arg(0), Operand(args[0], LOWEST));
        WithItsOwn(e, Arg(0));
      }
    case Attr(name) => TidyOne(AttrTok(name));
    case NumberLit(v) => TidyOne(NumberTok(v));
    case StringLit(s) => TidyOne(StringTok(s));
    case BoolLit(b) => TidyOne(if b then TrueTok else FalseTok);
  }

  lemma EmptyCallTidy(name: string)
    ensures Tidy([Ident(name)] + ([LParen] + ([] + [RParen])))
  {}

  /** The texts around a part are tidy. */
  lemma AroundTidy(e: Expr, turn: Turn)
    requires Plain(e) && HasPart(e, turn)
    ensures e.Binary? ==> Tidy(Print(e.x)) && Tidy(Print(e.y))
    ensures e.In? ==> Tidy(Print(e.list))
    ensures e.Call? ==> forall k :: 0 <= k < |e.args| ==> Tidy(Print(e.args[k]))
  {
    PlainPart(e, turn);
    hide Tidy, Print, Plain, IsList;
    if e.Binary? {
      PrintTidy(e.x);
      PrintTidy(e.y);
    } else if e.In? {
      ListTidy(e.list);
    } else if e.Call? {
      forall k | 0 <= k < |e.args| ensures Tidy(Print(e.args[k])) { PrintTidy(e.args[k]); }
    }
  }

  lemma {:induction false} BaredTidy(e: Expr, path: seq<Turn>)
    requires Plain(e) && EnclosedAt(e, path)
    ensures Tidy(Bared(e, path))
    decreases |path|
  {
    hide Tidy, Print, Plain, With;
    var turn, o := path[0], Part(e, path[0]);
    PlainPart(e, turn);
    if |path| == 1 {
      PrintTidy(o);
    } else {
      BaredTidy(o, path[1..]);
      TidyWrapped(Enclosed(e, turn), Bared(o, path[1..]));
    }
    AroundTidy(e, turn);
    WithTidy(e, turn, PartText(e, path));
  }

  // ---- what the texts weigh -------------------------------------------------------------------------

  /** A stretch weighs the same wherever it stands. */
  lemma Shift(s: seq<Token>, toks: seq<Token>, i: nat, w: nat)
    requires Reads(toks, i, s) && Weighs(s, 0, |s|, w)
    ensures Weighs(toks, i, i + |s|, w)
  {
    assert Depth(s, 0, |s| - 1) >= 0;
    assert !s[|s| - 1].LParen?;
    ShiftTo(s, toks, i, |s|);
    forall k | i <= k <= i + |s| ensures Depth(toks, i, k) >= 0 {
      ShiftTo(s, toks, i, k - i);
      assert Depth(s, 0, k - i) >= 0;
    }
  }

  lemma {:induction false} ShiftTo(s: seq<Token>, toks: seq<Token>, i: nat, k: nat)
    requires Reads(toks, i, s) && k <= |s| && s != [] && !s[|s| - 1].LParen?
    ensures Count(toks, i, i + k) == Count(s, 0, k) && Depth(toks, i, i + k) == Depth(s, 0, k)
    decreases k
  {
    if k > 0 {
      ShiftTo(s, toks, i, k - 1);
      var seen := toks[i..i + |s|];
      assert toks[i + k - 1] == seen[k - 1] == s[k - 1];
      if k < |s| { assert toks[i + k] == seen[k] == s[k]; }
    }
  }

  lemma PrintWeighs(toks: seq<Token>, i: nat, e: Expr)
    requires Plain(e) && Reads(toks, i, Print(e))
    ensures Weighs(toks, i, i + |Print(e)|, Weight(e))
  {
    hide Reads, Print, Weighs, ParseExpr, Plain, InfixPrec;
    var s := Print(e);
    PrintsLine(e);
    SeparatorsStop(s, |s|);
    Whole(s);
    ArgParses(s, 0, e);
    ExprWeighs(s, 0, LOWEST);
    Shift(s, toks, i, Weight(e));
  }

  lemma Whole(toks: seq<Token>)
    ensures Reads(toks, 0, toks)
  {
    assert toks[0..0 + |toks|] == toks;
  }

  lemma ListTextWeighs(toks: seq<Token>, i: nat, list: Expr)
    requires IsList(list) && Reads(toks, i, Print(list))
    ensures Weighs(toks, i, i + |Print(list)|, Weight(list))
  {
    hide Reads, Print, Weighs, ParseList, IsList;
    Whole(Print(list));
    ListParses(Print(list), 0, list);
    ListWeighs(Print(list), 0);
    Shift(Print(list), toks, i, Weight(list));
  }

  /** A text in parentheses weighs what it does without. */
  lemma WrappedWeighs(toks: seq<Token>, i: nat, enclosed: bool, text: seq<Token>, w: nat)
    requires Reads(toks, i, Wrapped(enclosed, text))
    requires Reads(toks, if enclosed then i + 1 else i, text) ==>
               var p := if enclosed then i + 1 else i; Weighs(toks, p, p + |text|, w)
    ensures Weighs(toks, i, i + |Wrapped(enclosed, text)|, w)
  {
    hide Reads, Weighs;
    if enclosed {
      ReadsAfter(toks, i, LParen, text + [RParen] + []);
      ReadsAround(toks, i + 1, text, RParen, []);
      GroupWeighs(toks, i, i + 1 + |text|, w);
    }
  }

  lemma OperandTextWeighs(toks: seq<Token>, i: nat, o: Expr, need: nat)
    requires Plain(o) && Reads(toks, i, Operand(o, need))
    ensures Weighs(toks, i, i + |Operand(o, need)|, Weight(o))
  {
    hide Reads, Print, Weighs, Plain, Operand;
    WrappedOperand(o, need);
    var p := if ExprPrec(o) < need then i + 1 else i;
    if Reads(toks, p, Print(o)) { PrintWeighs(toks, p, o); }
    WrappedWeighs(toks, i, ExprPrec(o) < need, Print(o), Weight(o));
  }

  /** Texts for the arguments of a call. */
  lemma {:induction false} SeveralWeighs(toks: seq<Token>, i: nat, es: seq<Expr>)
    requires es != [] && (forall k :: 0 <= k < |es| ==> Plain(es[k])) && Reads(toks, i, Several(es))
    ensures Weighs(toks, i, i + |Several(es)|, WeightAll(es))
    decreases |es|
  {
    hide Reads, Print, Weighs, Plain, Weight;
    if |es| == 1 {
      PrintWeighs(toks, i, es[0]);
    } else {
      ReadsAround(toks, i, Print(es[0]), Comma, Several(es[1..]));
      var k := i + |Print(es[0])|;
      PrintWeighs(toks, i, es[0]);
      OneWeighs(toks, k);
      SeveralWeighs(toks, k + 1, es[1..]);
      BothWeigh(toks, i, k, k + 1, Weight(es[0]), 1);
      BothWeigh(toks, i, k + 1, k + 1 + |Several(es[1..])|, Weight(es[0]) + 1, WeightAll(es[1..]));
    }
  }

  /** Where the n-th argument's text begins. */
  function ArgAt(es: seq<Expr>, n: nat): nat
    requires n < |es|
  {
    if n == 0 then 0 else |Print(es[0])| + 1 + ArgAt(es[1..], n - 1)
  }

  lemma {:induction false} SeveralWithWeighs(toks: seq<Token>, i: nat, es: seq<Expr>, n: nat, text: seq<Token>)
    requires n < |es| && (forall k :: 0 <= k < |es| ==> Plain(es[k])) && Reads(toks, i, SeveralWith(es, n, text))
    requires Reads(toks, i + ArgAt(es, n), text) ==>
               Weighs(toks, i + ArgAt(es, n), i + ArgAt(es, n) + |text|, Weight(es[n]))
    ensures Weighs(toks, i, i + |SeveralWith(es, n, text)|, WeightAll(es)) && Reads(toks, i + ArgAt(es, n), text)
    decreases n
  {
    hide Reads, Print, Weighs, Plain, Weight;
    if n > 0 {
      var rest := SeveralWith(es[1..], n - 1, text);
      ReadsAround(toks, i, Print(es[0]), Comma, rest);
      var k := i + |Print(es[0])|;
      PrintWeighs(toks, i, es[0]);
      OneWeighs(toks, k);
      SeveralWithWeighs(toks, k + 1, es[1..], n - 1, text);
      BothWeigh(toks, i, k, k + 1, Weight(es[0]), 1);
      BothWeigh(toks, i, k + 1, k + 1 + |rest|, Weight(es[0]) + 1, WeightAll(es[1..]));
    } else if |es| > 1 {
      ReadsAround(toks, i, text, Comma, Several(es[1..]));
      var k := i + |text|;
      OneWeighs(toks, k);
      SeveralWeighs(toks, k + 1, es[1..]);
      BothWeigh(toks, i, k, k + 1, Weight(es[0]), 1);
      BothWeigh(toks, i, k + 1, k + 1 + |Several(es[1..])|, Weight(es[0]) + 1, WeightAll(es[1..]));
    }
  }

  /** Where the part's text begins in its tree's. */
  function PartAt(e: Expr, turn: Turn): nat
    requires HasPart(e, turn)
  {
    match turn
    case First => 0
    case Last => if e.Binary? then |Operand(e.x, LeftMin(e.op))| + 1 else 1
    case Arg(n) => 2 + ArgAt(e.args, n)
  }

  /** With a part's text that weighs what the part does, the tree's weighs what the tree does. */
  lemma WithWeighs(toks: seq<Token>, i: nat, e: Expr, turn: Turn, text: seq<Token>)
    requires Plain(e) && HasPart(e, turn) && Reads(toks, i, With(e, turn, text))
    requires var p := i + PartAt(e, turn); Reads(toks, p, text) ==> Weighs(toks, p, p + |text|, Weight(Part(e, turn)))
    ensures Reads(toks, i + PartAt(e, turn), text) && Weighs(toks, i, i + |With(e, turn, text)|, Weight(e))
  {
    hide *;
    PlainPart(e, turn);
    PartAtIs(e, turn);
    match turn
    case First => FirstWithWeighs(toks, i, e, text);
    case Last => if e.Binary? { LastWithWeighs(toks, i, e, text); } else { UnaryWithWeighs(toks, i, e, text); }
    case Arg(n) => CallWithWeighs(toks, i, e, n, text);
  }

  lemma PartAtIs(e: Expr, turn: Turn)
    requires HasPart(e, turn)
    ensures turn.First? ==> Infix(e) && PartAt(e, turn) == 0 && Part(e, turn) == e.x
    ensures turn.Last? ==> (e.Unary? || e.Binary?) && Part(e, turn) == (if e.Binary? then e.y else e.x)
    ensures turn.Last? && e.Unary? ==> PartAt(e, turn) == 1
    ensures turn.Arg? ==>
              && e.Call? && turn.n < |e.args| && PartAt(e, turn) == 2 + ArgAt(e.args, turn.n)
              && Part(e, turn) == e.args[turn.n]
  {
    hide ArgAt, Operand;
  }

  lemma FirstWithWeighs(toks: seq<Token>, i: nat, e: Expr, text: seq<Token>)
    requires Plain(e) && Infix(e) && Reads(toks, i, With(e, First, text))
    requires Reads(toks, i, text) ==> Weighs(toks, i, i + |text|, Weight(e.x))
    ensures Reads(toks, i, text) && Weighs(toks, i, i + |With(e, First, text)|, Weight(e))
    ensures i + |text| < |toks| && Counts(toks, i + |text|) && InfixPrec(toks, i + |text|) == ExprPrec(e)
  {
    hide Reads, Print, Weighs, Plain, Operand, IsList, With, Weight, Rest, InfixPrec;
    var k, w := i + |text|, if e.In? then Weight(e.list) else Weight(e.y);
    WeightParts(e);
    FirstReads(toks, i, e, text);
    OperatorBindsAs(toks, k, e);
    OneWeighs(toks, k);
    RestWeighs(toks, k + 1, e);
    BothWeigh(toks, i, k, k + 1, Weight(e.x), 1);
    BothWeigh(toks, i, k + 1, k + 1 + |Rest(e)|, Weight(e.x) + 1, w);
  }

  lemma WeightParts(e: Expr)
    ensures e.Binary? ==> Weight(e) == Weight(e.x) + 1 + Weight(e.y)
    ensures e.In? ==> Weight(e) == Weight(e.x) + 1 + Weight(e.list)
    ensures e.Unary? ==> Weight(e) == 1 + Weight(e.x)
    ensures e.Call? && e.args != [] ==> Weight(e) == 1 + WeightAll(e.args)
  {}

  lemma OperatorBindsAs(toks: seq<Token>, k: nat, e: Expr)
    requires Plain(e) && Infix(e) && Peek(toks, k) == OperatorOf(e)
    ensures InfixPrec(toks, k) == ExprPrec(e) && Counts(toks, k)
    ensures (k < |toks| ==> !toks[k].LParen? && !toks[k].RParen?)
  {
    PlainPart(e, First);
  }

  lemma RestWeighs(toks: seq<Token>, i: nat, e: Expr)
    requires Plain(e) && Infix(e) && Reads(toks, i, Rest(e))
    ensures Weighs(toks, i, i + |Rest(e)|, if e.In? then Weight(e.list) else Weight(e.y))
  {
    PlainPart(e, First);
    hide Reads, Print, Weighs, Plain, Operand, IsList;
    if e.In? { ListTextWeighs(toks, i, e.list); } else { OperandTextWeighs(toks, i, e.y, Prec(e.op) + 1); }
  }

  lemma LastWithWeighs(toks: seq<Token>, i: nat, e: Expr, text: seq<Token>)
    requires Plain(e) && e.Binary? && Reads(toks, i, With(e, Last, text))
    requires var p := i + PartAt(e, Last); Reads(toks, p, text) ==> Weighs(toks, p, p + |text|, Weight(e.y))
    ensures Reads(toks, i + PartAt(e, Last), text) && Weighs(toks, i, i + |With(e, Last, text)|, Weight(e))
    ensures var k := i + |Operand(e.x, LeftMin(e.op))|; Weighs(toks, i, k, Weight(e.x)) && Counts(toks, k)
  {
    hide *;
    BinaryParts(e);
    var k := i + |Operand(e.x, LeftMin(e.op))|;
    WeightParts(e);
    OperatorIs(e);
    LastReads(toks, i, e, text);
    OperatorBindsAs(toks, k, e);
    OperandTextWeighs(toks, i, e.x, LeftMin(e.op));
    OneWeighs(toks, k);
    BothWeigh(toks, i, k, k + 1, Weight(e.x), 1);
    BothWeigh(toks, i, k + 1, k + 1 + |text|, Weight(e.x) + 1, Weight(e.y));
  }

  lemma UnaryWithWeighs(toks: seq<Token>, i: nat, e: Expr, text: seq<Token>)
    requires Plain(e) && e.Unary? && Reads(toks, i, With(e, Last, text))
    requires Reads(toks, i + 1, text) ==> Weighs(toks, i + 1, i + 1 + |text|, Weight(e.x))
    ensures Reads(toks, i + 1, text) && Weighs(toks, i, i + |With(e, Last, text)|, Weight(e))
  {
    PlainPart(e, Last);
    hide Reads, Print, Weighs, Plain, With, Weight;
    WeightParts(e);
    UnaryReads(toks, i, e, text);
    OneWeighs(toks, i);
    BothWeigh(toks, i, i + 1, i + 1 + |text|, 1, Weight(e.x));
  }

  lemma CallWithWeighs(toks: seq<Token>, i: nat, e: Expr, n: nat, text: seq<Token>)
    requires e.Call? && n < |e.args| && (forall k :: 0 <= k < |e.args| ==> Plain(e.args[k]))
    requires Reads(toks, i, With(e, Arg(n), text))
    requires var p := i + 2 + ArgAt(e.args, n); Reads(toks, p, text) ==> Weighs(toks, p, p + |text|, Weight(e.args[n]))
    ensures Reads(toks, i + 2 + ArgAt(e.args, n), text) && Weighs(toks, i, i + |With(e, Arg(n), text)|, Weight(e))
  {
    hide *;
    var all := SeveralWith(e.args, n, text);
    CallTokens(toks, i, e, n, text);
    SeveralWithWeighs(toks, i + 2, e.args, n, text);
    OneWeighs(toks, i);
    GroupWeighs(toks, i + 1, i + 2 + |all|, WeightAll(e.args));
    BothWeigh(toks, i, i + 1, i + 3 + |all|, 1, WeightAll(e.args));
    WeightParts(e);
  }

  lemma {:induction false} BaredWeighs(toks: seq<Token>, i: nat, e: Expr, path: seq<Turn>)
    requires Plain(e) && EnclosedAt(e, path) && Reads(toks, i, Bared(e, path))
    ensures Weighs(toks, i, i + |Bared(e, path)|, Weight(e))
    decreases |path|, 1
  {
    hide Reads, Print, Weighs, Plain, With, PartText;
    var p := i + PartAt(e, path[0]);
    if Reads(toks, p, PartText(e, path)) { PartTextWeighs(toks, p, e, path); }
    WithWeighs(toks, i, e, path[0], PartText(e, path));
  }

  lemma {:induction false} PartTextWeighs(toks: seq<Token>, p: nat, e: Expr, path: seq<Turn>)
    requires Plain(e) && EnclosedAt(e, path) && Reads(toks, p, PartText(e, path))
    ensures Weighs(toks, p, p + |PartText(e, path)|, Weight(Part(e, path[0])))
    decreases |path|, 0
  {
    PlainPart(e, path[0]);
    hide Reads, Print, Weighs, Plain, Bared;
    var o := Part(e, path[0]);
    if |path| == 1 {
      PrintWeighs(toks, p, o);
    } else {
      var enclosed := Enclosed(e, path[0]);
      var q := if enclosed then p + 1 else p;
      if Reads(toks, q, Bared(o, path[1..])) { BaredWeighs(toks, q, o, path[1..]); }
      WrappedWeighs(toks, p, enclosed, Bared(o, path[1..]), Weight(o));
    }
  }
}
