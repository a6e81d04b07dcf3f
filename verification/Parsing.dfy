/** The Pratt parser over one line's tokens (internal/rules/parser.go). A syntax error is None: its
diagnostics are not part of this model. */
module Parsing {
  import opened Domain
  import opened Syntax

  /** The token at i; past the line it is the end of the line. */
  function Peek(toks: seq<Token>, i: nat): Token { if i < |toks| then toks[i] else EndOfLine }

  /** How tight the infix operator at i binds; LOWEST if there is none. A not is infix just when in follows it. */
  function InfixPrec(toks: seq<Token>, i: nat): nat {
    match Peek(toks, i)
    case OrTok => OR
    case AndTok => AND
    case OpTok(op) => Prec(op)
    case InTok => COMPARE
    case NotTok => if Peek(toks, i + 1).InTok? then COMPARE else LOWEST
    case _ => LOWEST
  }

  function InfixOp(t: Token): Op
  {
    match t
    case OrTok => Or
    case AndTok => And
    case OpTok(op) => op
    case _ => Eq
  }

  type Parsed = Option<(Expr, nat)>

  function ParseItem(toks: seq<Token>, i: nat): (r: Parsed)
    ensures r.Some? ==> i < r.value.1 <= |toks|
  {
    match Peek(toks, i)
    case StringTok(s) => Some((StringLit(s), i + 1))
    case NumberTok(v) => Some((NumberLit(v), i + 1))
    case OpTok(op) =>
      if op == Sub && Peek(toks, i + 1).NumberTok? then Some((Unary(Neg, NumberLit(Peek(toks, i + 1).num)), i + 2))
        else None
    case _ => None
  }

  /** The items of a list from i on, up to the bracket that closes it. */
  function ParseItems(toks: seq<Token>, i: nat): (r: Option<(seq<Expr>, nat)>)
    ensures r.Some? ==> i < r.value.1 <= |toks| && r.value.0 != []
    decreases if i < |toks| then |toks| - i else 0
  {
    var first := ParseItem(toks, i);
    if first.None? then None
    else
      var (e, j) := first.value;
      match Peek(toks, j)
      case Comma =>
        var rest := ParseItems(toks, j + 1);
        if rest.None? then None else Some(([e] + rest.value.0, rest.value.1))
      case RBrack => Some(([e], j + 1))
      case _ => None
  }

  function ParseList(toks: seq<Token>, i: nat): (r: Parsed)
    ensures r.Some? ==> i < r.value.1 <= |toks|
  {
    match Peek(toks, i)
    case ListTok(name) => Some((ListRef(name), i + 1))
    case LBrack =>
      if Peek(toks, i + 1).RBrack? then None
      else
        var items := ParseItems(toks, i + 1);
        if items.None? then None else Some((ListLit(items.value.0), items.value.1))
    case _ => None
  }

  /** A prefix operator at i and what it applies to. */
  function ParseOperand(toks: seq<Token>, i: nat, op: Op): (r: Parsed)
    requires i < |toks|
    ensures r.Some? ==> i < r.value.1 <= |toks|
    decreases |toks| - i, 0
  {
    if Peek(toks, i + 1).EndOfLine? then None
    else
      var x := ParseExpr(toks, i + 1, Prec(op));
      if x.None? then None else Some((Unary(op, x.value.0), x.value.1))
  }

  function ParseGroup(toks: seq<Token>, i: nat): (r: Parsed)
    requires i < |toks|
    ensures r.Some? ==> i < r.value.1 <= |toks|
    decreases |toks| - i, 0
  {
    var inner := ParseExpr(toks, i + 1, LOWEST);
    if inner.None? || !Peek(toks, inner.value.1).RParen? then None else Some((inner.value.0, inner.value.1 + 1))
  }

  /** The arguments of a call from i on, one at least, up to the parenthesis that closes it. */
  function ParseArgs(toks: seq<Token>, i: nat): (r: Option<(seq<Expr>, nat)>)
    requires i <= |toks|
    ensures r.Some? ==> i < r.value.1 <= |toks|
    decreases |toks| - i, 3
  {
    var first := ParseExpr(toks, i, LOWEST);
    if first.None? then None
    else
      var (e, j) := first.value;
      match Peek(toks, j)
      case Comma =>
        var rest := ParseArgs(toks, j + 1);
        if rest.None? then None else Some(([e] + rest.value.0, rest.value.1))
      case RParen => Some(([e], j + 1))
      case _ => None
  }

  function ParseCall(toks: seq<Token>, i: nat, name: string): (r: Parsed)
    requires i + 1 < |toks|
    ensures r.Some? ==> i < r.value.1 <= |toks|
    decreases |toks| - i, 0
  {
    if Peek(toks, i + 2).RParen? then Some((Call(name, []), i + 3))
    else
      var args := ParseArgs(toks, i + 2);
      if args.None? then None else Some((Call(name, args.value.0), args.value.1))
  }

  function ParsePrefix(toks: seq<Token>, i: nat): (r: Parsed)
    requires i <= |toks|
    ensures r.Some? ==> i < r.value.1 <= |toks|
    decreases |toks| - i, 1
  {
    match Peek(toks, i)
    case NumberTok(v) => Some((NumberLit(v), i + 1))
    case StringTok(s) => Some((StringLit(s), i + 1))
    case TrueTok => Some((BoolLit(true), i + 1))
    case FalseTok => Some((BoolLit(false), i + 1))
    case AttrTok(name) => Some((Attr(name), i + 1))
    case NotTok => ParseOperand(toks, i, Not)
    case OpTok(op) => if op == Sub then ParseOperand(toks, i, Neg) else None
    case LParen => ParseGroup(toks, i)
    case Ident(name) => if Peek(toks, i + 1).LParen? then ParseCall(toks, i, name) else None
    case _ => None
  }

  /** What stands first at i, grown by every operator after it of a binding power above min. */
  function ParseExpr(toks: seq<Token>, i: nat, min: nat): (r: Parsed)
    requires i <= |toks|
    ensures r.Some? ==> i < r.value.1 <= |toks|
    decreases |toks| - i, 2
  {
    var left := ParsePrefix(toks, i);
    if left.None? then None else Fold(toks, left.value.1, min, left.value.0, false)
  }

  /** The loop of the Pratt parser; compared says the last operator folded was a comparison. */
  function Fold(toks: seq<Token>, i: nat, min: nat, left: Expr, compared: bool): (r: Parsed)
    requires i <= |toks|
    ensures r.Some? ==> i <= r.value.1 <= |toks|
    decreases |toks| - i, 0
  {
    var t, prec := Peek(toks, i), InfixPrec(toks, i);
    if prec <= min then Some((left, i))
    else if prec == COMPARE && compared then None
    else if t.InTok? || t.NotTok? then
      var list := ParseList(toks, if t.NotTok? then i + 2 else i + 1);
      if list.None? then None
      else
        var e := In(left, list.value.0);
        Fold(toks, list.value.1, min, if t.NotTok? then Unary(Not, e) else e, true)
    else if Peek(toks, i + 1).EndOfLine? then None
    else
      var right := ParseExpr(toks, i + 1, prec);
      if right.None? then None
      else Fold(toks, right.value.1, min, Binary(InfixOp(t), left, right.value.0), prec == COMPARE)
  }

  /** A whole line: a condition and nothing after it. */
  function Parse(toks: seq<Token>): Option<Expr> {
    var e := ParseExpr(toks, 0, LOWEST);
    if e.None? || !Peek(toks, e.value.1).EndOfLine? then None else Some(e.value.0)
  }

  // ---- what it produces ----------------------------------------------------------------

  /** A condition the printer can print, made of accepted tokens. */
  predicate Made(e: Expr, ok: Token -> bool) { Plain(e) && MadeOf(e, ok) }

  lemma {:induction false} ItemsAreMade(toks: seq<Token>, i: nat, ok: Token -> bool)
    requires IsLine(toks) && AllOf(toks, ok)
    ensures ParseItems(toks, i).Some? ==>
              forall k :: 0 <= k < |ParseItems(toks, i).value.0| ==>
                IsItem(ParseItems(toks, i).value.0[k]) && MadeOf(ParseItems(toks, i).value.0[k], ok)
    decreases if i < |toks| then |toks| - i else 0
  {
    var first := ParseItem(toks, i);
    ItemIsMade(toks, i, ok);
    hide ParseItem, IsItem, IsLine, AllOf;
    if first.Some? && Peek(toks, first.value.1).Comma? { ItemsAreMade(toks, first.value.1 + 1, ok); }
  }

  lemma ItemIsMade(toks: seq<Token>, i: nat, ok: Token -> bool)
    requires IsLine(toks) && AllOf(toks, ok)
    ensures ParseItem(toks, i).Some? ==> IsItem(ParseItem(toks, i).value.0) && MadeOf(ParseItem(toks, i).value.0, ok)
  {}

  lemma ListIsMade(toks: seq<Token>, i: nat, ok: Token -> bool)
    requires IsLine(toks) && AllOf(toks, ok)
    ensures ParseList(toks, i).Some? ==> IsList(ParseList(toks, i).value.0) && MadeOf(ParseList(toks, i).value.0, ok)
  {
    ItemsAreMade(toks, i + 1, ok);
    hide IsItem, IsLine, ParseItems;
  }

  lemma {:induction false} ArgsAreMade(toks: seq<Token>, i: nat, ok: Token -> bool)
    requires IsLine(toks) && AllOf(toks, ok) && i <= |toks|
    ensures ParseArgs(toks, i).Some? ==> forall k :: 0 <= k < |ParseArgs(toks, i).value.0| ==>
              Made(ParseArgs(toks, i).value.0[k], ok)
    decreases |toks| - i, 3
  {
    hide ParseExpr, Made, IsLine, AllOf;
    ExprIsMade(toks, i, LOWEST, ok);
    var first := ParseExpr(toks, i, LOWEST);
    if first.Some? && Peek(toks, first.value.1).Comma? { ArgsAreMade(toks, first.value.1 + 1, ok); }
  }

  lemma {:induction false} PrefixIsMade(toks: seq<Token>, i: nat, ok: Token -> bool)
    requires IsLine(toks) && AllOf(toks, ok) && i <= |toks|
    ensures ParsePrefix(toks, i).Some? ==> Made(ParsePrefix(toks, i).value.0, ok)
    decreases |toks| - i, 1
  {
    hide ParseExpr, ParseArgs;
    match Peek(toks, i)
    case NotTok => ExprIsMade(toks, i + 1, Prec(Not), ok);
    case OpTok(_) => ExprIsMade(toks, i + 1, Prec(Neg), ok);
    case LParen => ExprIsMade(toks, i + 1, LOWEST, ok);
    case Ident(_) => if i + 2 <= |toks| { ArgsAreMade(toks, i + 2, ok); }
    case _ =>
  }

  lemma {:induction false} ExprIsMade(toks: seq<Token>, i: nat, min: nat, ok: Token -> bool)
    requires IsLine(toks) && AllOf(toks, ok) && i <= |toks|
    ensures ParseExpr(toks, i, min).Some? ==> Made(ParseExpr(toks, i, min).value.0, ok)
    decreases |toks| - i, 2
  {
    hide ParsePrefix, Fold, Made;
    PrefixIsMade(toks, i, ok);
    var left := ParsePrefix(toks, i);
    if left.Some? { FoldIsMade(toks, left.value.1, min, left.value.0, false, ok); }
  }

  lemma InIsMade(x: Expr, list: Expr, ok: Token -> bool)
    requires Made(x, ok) && IsList(list) && MadeOf(list, ok)
    ensures Made(In(x, list), ok) && Made(Unary(Not, In(x, list)), ok)
  {
    assert Plain(In(x, list)) && MadeOf(In(x, list), ok);
  }

  lemma {:induction false} FoldIsMade(toks: seq<Token>, i: nat, min: nat, left: Expr, compared: bool, ok: Token -> bool)
    requires IsLine(toks) && AllOf(toks, ok) && i <= |toks| && Made(left, ok)
    ensures Fold(toks, i, min, left, compared).Some? ==> Made(Fold(toks, i, min, left, compared).value.0, ok)
    decreases |toks| - i, 0
  {
    hide ParseExpr, ParseList, IsList;
    var t, prec := Peek(toks, i), InfixPrec(toks, i);
    if prec <= min || (prec == COMPARE && compared) {
    } else if t.InTok? || t.NotTok? {
      var k := if t.NotTok? then i + 2 else i + 1;
      ListIsMade(toks, k, ok);
      var list := ParseList(toks, k);
      if list.Some? {
        var e := In(left, list.value.0);
        InIsMade(left, list.value.0, ok);
        FoldIsMade(toks, list.value.1, min, if t.NotTok? then Unary(Not, e) else e, true, ok);
      }
    } else if !Peek(toks, i + 1).EndOfLine? {
      ExprIsMade(toks, i + 1, prec, ok);
      var right := ParseExpr(toks, i + 1, prec);
      if right.Some? { FoldIsMade(toks, right.value.1, min, Binary(InfixOp(t), left, right.value.0), prec == COMPARE,
        ok); }
    }
  }

  /** Whatever line is parsed, the tree is one the printer can print, made of the line's tokens. */
  lemma ParsedIsMade(toks: seq<Token>, ok: Token -> bool)
    requires IsLine(toks) && AllOf(toks, ok)
    ensures Parse(toks).Some? ==> Plain(Parse(toks).value) && MadeOf(Parse(toks).value, ok)
  {
    ExprIsMade(toks, 0, LOWEST, ok);
    hide ParseExpr, Plain, MadeOf;
  }

  // ---- the parser itself ---------------------------------------------------------------

  /** A cursor over one line's tokens. A failed parse leaves it anywhere. */
  class Parser {
    const toks: seq<Token>
    var p: nat

    constructor (toks: seq<Token>)
      ensures this.toks == toks && p == 0
    {
      this.toks, p := toks, 0;
    }

    function At(): Token
      reads this
    {
      Peek(toks, p)
    }

    /** Takes the token at the cursor; the end of the line stays. */
    method Next() returns (t: Token)
      requires p <= |toks|
      modifies this
      ensures t == Peek(toks, old(p)) && p == if old(p) < |toks| then old(p) + 1 else old(p)
    {
      t := At();
      if p < |toks| { p := p + 1; }
    }

    /** The parse found e and the cursor stands after it, or the parse failed. */
    ghost predicate Got(r: Option<Expr>, want: Parsed)
      reads this
    {
      p <= |toks| && if r.None? then want.None? else want == Some((r.value, p))
    }

    method Item() returns (r: Option<Expr>)
      requires p <= |toks| && IsLine(toks)
      modifies this
      ensures Got(r, ParseItem(toks, old(p)))
    {
      var t := Next();
      match t
      case StringTok(s) => r := Some(StringLit(s));
      case NumberTok(v) => r := Some(NumberLit(v));
      case OpTok(op) =>
        if op == Sub && At().NumberTok? {
          var n := Next();
          return Some(Unary(Neg, NumberLit(n.num)));
        }
        r := None;
      case _ => r := None;
    }

    method List() returns (r: Option<Expr>)
      requires p <= |toks| && IsLine(toks)
      modifies this
      ensures Got(r, ParseList(toks, old(p)))
    {
      hide ParseItems, ParseItem, IsLine;
      var t := Next();
      if t.ListTok? { return Some(ListRef(t.name)); }
      if !t.LBrack? || At().RBrack? { return None; }
      var items := Items();
      if items.None? { return None; }
      r := Some(ListLit(items.value));
    }

    /** The items up to the closing bracket. */
    method Items() returns (r: Option<seq<Expr>>)
      requires p <= |toks| && IsLine(toks)
      modifies this
      ensures p <= |toks|
      ensures if r.None? then ParseItems(toks, old(p)).None? else ParseItems(toks, old(p)) == Some((r.value, p))
    {
      hide ParseItems, ParseItem, IsLine;
      var items: seq<Expr> := [];
      PrependedNone(ParseItems(toks, p));
      while true
        invariant old(p) <= p <= |toks|
        invariant ParseItems(toks, old(p)) == Prepended(items, ParseItems(toks, p))
        decreases |toks| - p
      {
        ItemsTurn(toks, p);
        ghost var before := p;
        var e := Item();
        if e.None? { return None; }
        var c := Next();
        PrependedMore(items, e.value, ParseItems(toks, p));
        items := items + [e.value];
        if c.RBrack? { return Some(items); }
        if !c.Comma? { return None; }
      }
    }

    method Operand(op: Op) returns (r: Option<Expr>)
      requires 0 < p <= |toks| && IsLine(toks)
      modifies this
      ensures Got(r, ParseOperand(toks, old(p) - 1, op))
      decreases |toks| - p, 7
    {
      hide IsLine, ParseExpr;
      if At().EndOfLine? { return None; }
      var x := Expression(Prec(op));
      if x.None? { return None; }
      r := Some(Unary(op, x.value));
    }

    /** The arguments of a call whose name and parenthesis have been read. */
    method Arguments() returns (r: Option<seq<Expr>>)
      requires p <= |toks| && IsLine(toks)
      modifies this
      ensures p <= |toks|
      ensures if r.None? then ParseArgs(toks, old(p)).None? else ParseArgs(toks, old(p)) == Some((r.value, p))
      decreases |toks| - p, 7
    {
      hide ParseArgs, ParseExpr, IsLine;
      var args: seq<Expr> := [];
      PrependedNone(ParseArgs(toks, p));
      while true
        invariant old(p) <= p <= |toks|
        invariant ParseArgs(toks, old(p)) == Prepended(args, ParseArgs(toks, p))
        decreases |toks| - p
      {
        ArgsTurn(toks, p);
        var e := Expression(LOWEST);
        if e.None? { return None; }
        if At().Comma? { PrependedMore(args, e.value, ParseArgs(toks, p + 1)); }
        args := args + [e.value];
        if !At().Comma? { break; }
        var _ := Next();
      }
      if !At().RParen? { return None; }
      var _ := Next();
      r := Some(args);
    }

    method Prefix() returns (r: Option<Expr>)
      requires p <= |toks| && IsLine(toks)
      modifies this
      ensures Got(r, ParsePrefix(toks, old(p)))
      decreases |toks| - p, 5
    {
      hide ParseExpr, ParseArgs, ParseOperand;
      var t := Next();
      match t
      case NumberTok(v) => r := Some(NumberLit(v));
      case StringTok(s) => r := Some(StringLit(s));
      case TrueTok => r := Some(BoolLit(true));
      case FalseTok => r := Some(BoolLit(false));
      case AttrTok(name) => r := Some(Attr(name));
      case NotTok => r := Operand(Not);
      case OpTok(op) => if op == Sub { r := Operand(Neg); } else { r := None; }
      case LParen =>
        r := Expression(LOWEST);
        if r.None? || !At().RParen? { return None; }
        var _ := Next();
      case Ident(name) =>
        if !At().LParen? { return None; }
        var _ := Next();
        if At().RParen? {
          var _ := Next();
          return Some(Call(name, []));
        }
        var args := Arguments();
        r := if args.None? then None else Some(Call(name, args.value));
      case _ => r := None;
    }

    /** Moves the cursor past one expression, stopping before an operator of binding power min or less. */
    method Expression(min: nat) returns (r: Option<Expr>)
      requires p <= |toks| && IsLine(toks)
      modifies this
      ensures Got(r, ParseExpr(toks, old(p), min))
      decreases |toks| - p, 6
    {
      hide ParsePrefix, ParseList, IsLine;
      var prefix := Prefix();
      if prefix.None? { return None; }
      var left, compared := prefix.value, false;
      while true
        invariant old(p) < p <= |toks|
        invariant ParseExpr(toks, old(p), min) == Fold(toks, p, min, left, compared)
        decreases |toks| - p
      {
        hide ParseExpr;
        var t, prec := At(), InfixPrec(toks, p);
        if prec <= min { return Some(left); }
        if prec == COMPARE && compared { return None; }
        compared := prec == COMPARE;
        var _ := Next();
        if t.InTok? || t.NotTok? {
          if t.NotTok? { var _ := Next(); }
          var list := List();
          if list.None? { return None; }
          var e := In(left, list.value);
          left := if t.NotTok? then Unary(Not, e) else e;
        } else {
          if At().EndOfLine? { return None; }
          var right := Expression(prec);
          if right.None? { return None; }
          left := Binary(InfixOp(t), left, right.value);
        }
      }
    }

    /** A condition and nothing after it. */
    method Line() returns (r: Option<Expr>)
      requires p == 0 && IsLine(toks)
      modifies this
      ensures r == Parse(toks)
    {
      hide ParseExpr, IsLine;
      r := Expression(LOWEST);
      if r.Some? && !At().EndOfLine? { r := None; }
    }
  }

  /** A list parsed from its first items and the rest. */
  function Prepended(first: seq<Expr>, rest: Option<(seq<Expr>, nat)>): Option<(seq<Expr>, nat)> {
    if rest.None? then None else Some((first + rest.value.0, rest.value.1))
  }

  lemma PrependedNone(rest: Option<(seq<Expr>, nat)>)
    ensures Prepended([], rest) == rest
  {
    if rest.Some? { assert [] + rest.value.0 == rest.value.0; }
  }

  lemma PrependedMore(first: seq<Expr>, e: Expr, rest: Option<(seq<Expr>, nat)>)
    ensures Prepended(first, Prepended([e], rest)) == Prepended(first + [e], rest)
  {
    if rest.Some? { assert first + ([e] + rest.value.0) == (first + [e]) + rest.value.0; }
  }

  lemma ItemsTurn(toks: seq<Token>, i: nat)
    ensures var first := ParseItem(toks, i);
            ParseItems(toks, i) ==
              if first.None? then None
              else if Peek(toks, first.value.1).Comma?
                then Prepended([first.value.0], ParseItems(toks, first.value.1 + 1))
              else if Peek(toks, first.value.1).RBrack? then Some(([first.value.0], first.value.1 + 1)) else None
  {}

  lemma ArgsTurn(toks: seq<Token>, i: nat)
    requires i <= |toks|
    ensures var first := ParseExpr(toks, i, LOWEST);
            ParseArgs(toks, i) ==
              if first.None? then None
              else if Peek(toks, first.value.1).Comma?
                then Prepended([first.value.0], ParseArgs(toks, first.value.1 + 1))
              else if Peek(toks, first.value.1).RParen? then Some(([first.value.0], first.value.1 + 1)) else None
  {
    hide ParseExpr;
  }
}
