/** Which of the parentheses the printer writes could be left out of a line (internal/rules/printer.go). */
module Parentheses {
  import opened Domain
  import opened Syntax
  import opened Parsing
  import opened Printing
  import opened Readings
  import opened Places

  // ---- what cannot be read -----------------------------------------------------------------------------

  /** What stands first where an infix tree is read is not yet that tree. */
  lemma PrefixSmaller(toks: seq<Token>, i: nat, k: nat, e: Expr)
    requires Infix(e) && Weighs(toks, i, k, Weight(e.x)) && ParsePrefix(toks, i).Some?
    ensures ParsePrefix(toks, i).value.0 != e
  {
    hide ParseExpr, ParseArgs;
    if toks[i].LParen? {
      GroupInside(toks, i, k, Weight(e.x));
      PrefixWeighs(toks, i);
      var j := ParsePrefix(toks, i).value.1;
      Split(toks, i, j, k);
      assert Count(toks, i, j) <= Count(toks, i, k);
    }
  }

  /** A group closes no later than the stretch it begins. */
  lemma GroupInside(toks: seq<Token>, i: nat, k: nat, w: nat)
    requires i < |toks| && toks[i].LParen? && Weighs(toks, i, k, w) && ParsePrefix(toks, i).Some?
    ensures ParsePrefix(toks, i).value.1 <= k
  {
    hide ParseExpr, Count;
    var j := ParsePrefix(toks, i).value.1;
    ExprWeighs(toks, i + 1, LOWEST);
    if k < j {
      Single(toks, i);
      Split(toks, i, i + 1, k);
    }
  }

  lemma Held(toks: seq<Token>, i: nat, min: nat, e: Expr) returns (z: Stand)
    requires i <= |toks| && Passes(toks, i, min, e)
    ensures Reaches(toks, i, min, z) && z.left == e
  {
    hide Reaches;
    var k: nat, c :| Reaches(toks, i, min, Stand(k, e, c));
    z := Stand(k, e, c);
  }

  /** Where only tighter operators are folded an infix tree is never held. */
  lemma LooseNever(toks: seq<Token>, i: nat, o: Expr, min: nat)
    requires Clean(toks) && Plain(o) && Infix(o) && Reads(toks, i, Print(o)) && ExprPrec(o) <= min
    ensures i <= |toks| && !Passes(toks, i, min, o)
  {
    hide Print, Reads, Clean, Plain, Weighs, Reaches;
    FirstPrinted(toks, i, o);
    if Passes(toks, i, min, o) {
      var k: nat, c :| Reaches(toks, i, min, Stand(k, o, c));
      NotAtOnce(toks, i, |Operand(o.x, Needs(o, First))| + i, o);
      var y := FromTurn(toks, i, min, Stand(k, o, c));
    }
  }

  /** The left side of a printed infix tree. */
  lemma FirstPrinted(toks: seq<Token>, i: nat, o: Expr)
    requires Plain(o) && Infix(o) && Reads(toks, i, Print(o))
    ensures Weighs(toks, i, i + |Operand(o.x, Needs(o, First))|, Weight(o.x)) && i <= |toks|
  {
    hide *;
    LeftPart(o);
    var x := Operand(o.x, Needs(o, First));
    WithItsOwn(o, First);
    FirstReads(toks, i, o, x);
    OperandTextWeighs(toks, i, o.x, Needs(o, First));
    Ends(toks, i, i + |x|, Weight(o.x));
  }

  lemma LeftPart(o: Expr)
    requires Plain(o) && Infix(o)
    ensures (o.Binary? || o.In?) && HasPart(o, First) && Part(o, First) == o.x && Plain(o.x)
  {
    PlainPart(o, First);
  }

  lemma Ends(toks: seq<Token>, i: nat, j: nat, w: nat)
    requires Weighs(toks, i, j, w)
    ensures i < j <= |toks|
  {}

  lemma NotAtOnce(toks: seq<Token>, i: nat, k: nat, e: Expr)
    requires Infix(e) && Weighs(toks, i, k, Weight(e.x))
    ensures i <= |toks| && (ParsePrefix(toks, i).Some? ==> ParsePrefix(toks, i).value.0 != e)
  {
    if ParsePrefix(toks, i).Some? { PrefixSmaller(toks, i, k, e); }
    hide ParsePrefix;
  }

  /** A prefix tree is held only at the start. */
  lemma OnlyAtOnce(toks: seq<Token>, i: nat, min: nat, z: Stand)
    requires Clean(toks) && i <= |toks| && Reaches(toks, i, min, z) && !Infix(z.left)
    ensures ParsePrefix(toks, i) == Some((z.left, z.at))
  {
    hide Clean, ParsePrefix, Turned;
    var l := ParsePrefix(toks, i).value;
    if Stand(l.1, l.0, false) != z {
      var y := Before(toks, min, Stand(l.1, l.0, false), z);
      TurnMakes(toks, min, y);
    }
  }

  /** What a prefix operator is read as. */
  lemma PrefixIs(toks: seq<Token>, i: nat, op: Op)
    requires i < |toks| && (op == Not || op == Neg) && toks[i] == OpToken(op)
    ensures var r := ParsePrefix(toks, i);
            r.Some? ==>
              var x := ParseExpr(toks, i + 1, Prec(op));
              x.Some? && r.value == (Unary(op, x.value.0), x.value.1)
  {
    hide ParseExpr;
  }

  lemma ExprEnds(toks: seq<Token>, i: nat, min: nat)
    requires i <= |toks| && ParseExpr(toks, i, min).Some?
    ensures InfixPrec(toks, ParseExpr(toks, i, min).value.1) <= min
  {
    hide ParseExpr, InfixPrec, Passes, Reaches;
    var c := ExprPasses(toks, i, min);
  }

  /** Before an operator that binds tighter a not takes in more than its own operand. */
  lemma NotNever(toks: seq<Token>, i: nat, o: Expr, min: nat)
    requires Clean(toks) && Plain(o) && o.Unary? && o.op == Not && Reads(toks, i, Print(o))
    requires InfixPrec(toks, i + |Print(o)|) > NOT
    ensures i <= |toks| && !Passes(toks, i, min, o)
  {
    hide Print, Reads, Clean, Plain, Weighs, Reaches, InfixPrec, Passes, ParseExpr, ParsePrefix, Counts;
    var j := i + |Print(o)|;
    Binds(toks, j);
    NotReads(toks, i, o);
    if Passes(toks, i, min, o) {
      var y := Held(toks, i, min, o);
      OnlyAtOnce(toks, i, min, y);
      NotEnds(toks, i, o, y.at);
      SameEnd(toks, i + 1, j, y.at, Weight(o.x));
    }
  }

  lemma NotReads(toks: seq<Token>, i: nat, o: Expr)
    requires Plain(o) && o.Unary? && o.op == Not && Reads(toks, i, Print(o))
    ensures i < |toks| && toks[i] == NotTok && Weighs(toks, i + 1, i + |Print(o)|, Weight(o.x))
  {
    PlainPart(o, Last);
    UnaryPrints(o);
    hide Print, Reads, Plain, Weighs, Operand;
    ReadsAfter(toks, i, NotTok, Operand(o.x, NOT));
    OperandTextWeighs(toks, i + 1, o.x, NOT);
  }

  lemma NotEnds(toks: seq<Token>, i: nat, o: Expr, k: nat)
    requires i < |toks| && toks[i] == NotTok && o.Unary? && ParsePrefix(toks, i) == Some((o, k))
    ensures Weighs(toks, i + 1, k, Weight(o.x)) && InfixPrec(toks, k) <= NOT
  {
    hide ParseExpr, ParsePrefix, InfixPrec, Weighs;
    PrefixIs(toks, i, Not);
    ExprWeighs(toks, i + 1, NOT);
    ExprEnds(toks, i + 1, NOT);
  }

  lemma Binds(toks: seq<Token>, j: nat)
    requires InfixPrec(toks, j) > LOWEST
    ensures Counts(toks, j)
  {}

  /** Two stretches of one weight, from one place on, end at one place if something that weighs follows the first. */
  lemma SameEnd(toks: seq<Token>, i: nat, j: nat, k: nat, w: nat)
    requires Weighs(toks, i, j, w) && Weighs(toks, i, k, w) && Counts(toks, j)
    ensures j == k
  {
    if j < k {
      Later(toks, i, j, k);
    } else if k < j {
      Split(toks, i, k, j);
      Single(toks, k);
      Split(toks, k, k + 1, j);
      Split(toks, i, k, k + 1);
      assert Depth(toks, i, k + 1) >= 0;
      AllOpen(toks, k, j);
    }
  }

  /** Where nothing weighs and the first parenthesis opens, all do. */
  lemma {:induction false} AllOpen(toks: seq<Token>, k: nat, j: nat)
    requires k < j < |toks| && Count(toks, k, j) == 0 && !toks[k].RParen?
    ensures toks[j - 1].LParen? && Depth(toks, k, j) == j - k
    decreases j
  {
    if k + 1 < j {
      AllOpen(toks, k, j - 1);
    } else {
      Single(toks, k);
    }
  }

  /** A group whose inside is not read as o is not held as o, nor is anything after it. */
  lemma EnclosedNever(toks: seq<Token>, i: nat, q: nat, o: Expr, min: nat)
    requires Clean(toks) && q < |toks| && Peek(toks, i) == LParen && Peek(toks, q) == RParen
    requires Weighs(toks, i + 1, q, Weight(o))
    requires !Passes(toks, i + 1, LOWEST, o)
    ensures !Passes(toks, i, min, o)
  {
    hide Passes, Reaches, Clean, Weighs;
    if Passes(toks, i, min, o) {
      var z := Held(toks, i, min, o);
      GetsMore(toks, i, min, z);
      GroupRead(toks, i, q, o);
    }
  }

  /** Anything held weighs more than what stands first, or is that. */
  lemma GetsMore(toks: seq<Token>, i: nat, min: nat, z: Stand)
    requires i <= |toks| && Reaches(toks, i, min, z)
    ensures var l := ParsePrefix(toks, i); l.Some? && (l.value.0 == z.left || Weight(z.left) > Weight(l.value.0))
  {
    hide Weighs, ParsePrefix;
    PrefixWeighs(toks, i);
    var l := ParsePrefix(toks, i).value;
    GetsHeavier(toks, i, min, Stand(l.1, l.0, false), z);
  }

  /** A group in place of an enclosed tree weighs what that does, and is not that unless its inside is read as that. */
  lemma GroupRead(toks: seq<Token>, i: nat, q: nat, o: Expr)
    requires i < |toks| && q < |toks| && Peek(toks, i) == LParen && Peek(toks, q) == RParen
    requires Weighs(toks, i + 1, q, Weight(o))
    requires !Passes(toks, i + 1, LOWEST, o) && ParsePrefix(toks, i).Some?
    ensures Weight(ParsePrefix(toks, i).value.0) == Weight(o) && ParsePrefix(toks, i).value.0 != o
  {
    hide ParseExpr, Passes, Reaches, Count;
    ExprWeighs(toks, i + 1, LOWEST);
    var (g, k) := ParseExpr(toks, i + 1, LOWEST).value;
    var c := ExprPasses(toks, i + 1, LOWEST);
    SameClose(toks, i + 1, q, k, Weight(o), Weight(g));
  }

  /** Two stretches from one place on, each with a closing parenthesis after it, are one. */
  lemma SameClose(toks: seq<Token>, i: nat, j: nat, k: nat, v: nat, w: nat)
    requires Weighs(toks, i, j, v) && Weighs(toks, i, k, w) && Peek(toks, j) == RParen && Peek(toks, k) == RParen
    ensures j == k && v == w
  {
    Split(toks, i, j, j + 1);
    Split(toks, i, k, k + 1);
    Single(toks, j);
    Single(toks, k);
    assert j < k ==> Depth(toks, i, j + 1) >= 0;
    assert k < j ==> Depth(toks, i, k + 1) >= 0;
  }

  // ---- from a part to its tree -----------------------------------------------------------------------------

  /** A tree whose left side is never held is not held either. */
  lemma FirstLift(toks: seq<Token>, i: nat, k: nat, e: Expr, min: nat)
    requires Clean(toks) && Infix(e) && Weighs(toks, i, k, Weight(e.x)) && !Passes(toks, i, min, e.x)
    ensures i <= |toks| && !Passes(toks, i, min, e)
  {
    hide Passes, Reaches, Clean, Weighs;
    NotAtOnce(toks, i, k, e);
    if Passes(toks, i, min, e) {
      var z := Held(toks, i, min, e);
      var y := FromTurn(toks, i, min, z);
      Holds(toks, i, min, y);
    }
  }

  lemma Holds(toks: seq<Token>, i: nat, min: nat, y: Stand)
    requires i <= |toks| && Reaches(toks, i, min, y)
    ensures Passes(toks, i, min, y.left)
  {
    hide Reaches;
    assert Reaches(toks, i, min, Stand(y.at, y.left, y.compared));
  }

  /** Nor one whose right side is never held after its operator. */
  lemma LastLift(toks: seq<Token>, i: nat, k: nat, e: Expr, min: nat)
    requires Clean(toks) && e.Binary? && Weighs(toks, i, k, Weight(e.x)) && Counts(toks, k)
    requires !Passes(toks, k + 1, Prec(e.op), e.y)
    ensures i <= |toks| && !Passes(toks, i, min, e)
  {
    hide Passes, Reaches, Clean, ParseExpr, Counts, InfixPrec;
    NotAtOnce(toks, i, k, e);
    if Passes(toks, i, min, e) {
      var z := Held(toks, i, min, e);
      var y := FromTurn(toks, i, min, z);
      SamePlace(toks, i, k, y.at);
      var c := ExprPasses(toks, k + 1, Prec(e.op));
    }
  }

  lemma UnaryLift(toks: seq<Token>, i: nat, e: Expr, min: nat)
    requires Clean(toks) && e.Unary? && (e.op == Not || e.op == Neg) && Peek(toks, i) == OpToken(e.op)
    requires i < |toks| && !Passes(toks, i + 1, Prec(e.op), e.x)
    ensures !Passes(toks, i, min, e)
  {
    hide Passes, Reaches, Clean, ParseExpr;
    if Passes(toks, i, min, e) {
      var z := Held(toks, i, min, e);
      OnlyAtOnce(toks, i, min, z);
      PrefixIs(toks, i, e.op);
      var c := ExprPasses(toks, i + 1, Prec(e.op));
    }
  }

  /** Nor a call one of whose arguments is never held at its place. */
  lemma CallLift(toks: seq<Token>, i: nat, e: Expr, n: nat, text: seq<Token>, min: nat)
    requires Clean(toks) && e.Call? && n < |e.args| && (forall k :: 0 <= k < |e.args| ==> Plain(e.args[k]))
    requires Reads(toks, i, With(e, Arg(n), text)) && i + 2 + ArgAt(e.args, n) <= |toks|
    requires !Passes(toks, i + 2 + ArgAt(e.args, n), LOWEST, e.args[n])
    ensures i <= |toks| && !Passes(toks, i, min, e)
  {
    hide *;
    CallTokens(toks, i, e, n, text);
    if Passes(toks, i, min, e) {
      ArgsNever(toks, i + 2, e.args, n, text);
      var z := Held(toks, i, min, e);
      CallNotInfix(e);
      OnlyAtOnce(toks, i, min, z);
      CallArgsRead(toks, i, e, z.at);
    }
  }

  lemma CallNotInfix(e: Expr)
    requires e.Call?
    ensures !Infix(e)
  {}

  /** A call with arguments is read from its arguments. */
  lemma CallArgsRead(toks: seq<Token>, i: nat, e: Expr, k: nat)
    requires e.Call? && e.args != [] && i + 2 < |toks| && toks[i] == Ident(e.name) && toks[i + 1] == LParen
    requires ParsePrefix(toks, i) == Some((e, k))
    ensures ParseArgs(toks, i + 2).Some? && ParseArgs(toks, i + 2).value.0 == e.args
  {
    hide ParseArgs, ParseExpr;
  }

  lemma {:induction false} ArgsNever(toks: seq<Token>, i: nat, es: seq<Expr>, n: nat, text: seq<Token>)
    requires n < |es| && (forall k :: 0 <= k < |es| ==> Plain(es[k])) && Reads(toks, i, SeveralWith(es, n, text))
    requires i + ArgAt(es, n) <= |toks| && !Passes(toks, i + ArgAt(es, n), LOWEST, es[n])
    ensures i <= |toks| && (ParseArgs(toks, i).Some? ==> ParseArgs(toks, i).value.0 != es)
    decreases n
  {
    hide Passes, Reaches, Reads, Print, ParseExpr, Plain;
    var first := ParseExpr(toks, i, LOWEST);
    if n == 0 {
      if first.Some? { var c := ExprPasses(toks, i, LOWEST); }
    } else {
      var k := i + |Print(es[0])|;
      ReadsAround(toks, i, Print(es[0]), Comma, SeveralWith(es[1..], n - 1, text));
      ArgsNever(toks, k + 1, es[1..], n - 1, text);
      if ParseArgs(toks, i).Some? && ParseArgs(toks, i).value.0 == es {
        var rest := ParseArgs(toks, first.value.1 + 1).value.0;
        assert ([first.value.0] + rest)[1..] == rest;
        PrintWeighs(toks, i, es[0]);
        ExprWeighs(toks, i, LOWEST);
        SamePlace(toks, i, k, first.value.1);
      }
    }
  }

  /** Without its parentheses a looser left side is taken apart, or never read. */
  lemma FirstNever(toks: seq<Token>, i: nat, e: Expr, min: nat)
    requires Clean(toks) && Plain(e) && Infix(e) && Enclosed(e, First) && Reads(toks, i, With(e, First, Print(e.x)))
    requires !(e.x.In? && ExprPrec(e) > COMPARE && min < COMPARE)
    ensures i <= |toks| && !Passes(toks, i, min, e)
  {
    hide *;
    LooserLeft(e);
    var k := i + |Print(e.x)|;
    if Reads(toks, i, Print(e.x)) { PrintWeighs(toks, i, e.x); }
    FirstWithWeighs(toks, i, e, Print(e.x));
    PrintWeighs(toks, i, e.x);
    NotAtOnce(toks, i, k, e);
    if Passes(toks, i, min, e) {
      var z := Held(toks, i, min, e);
      var y := FromTurn(toks, i, min, z);
      MakesOf(toks, min, y, e, z.at);
      PlaceOf(toks, i, k, y.at, Weight(e.x));
      if e.x.Unary? { NotStops(toks, i, e.x, min, y); } else { InfixStops(toks, i, e.x, min, y); }
    }
  }

  lemma MakesOf(toks: seq<Token>, min: nat, y: Stand, e: Expr, end: nat)
    requires Infix(e) && y.at <= |toks| && MadeBy(toks, min, y, e, end)
    ensures y.left == e.x && Counts(toks, y.at)
    ensures InfixPrec(toks, y.at) == ExprPrec(e) && !(ExprPrec(e) == COMPARE && y.compared)
  {
    hide ParseExpr;
  }

  /** A left side the printer encloses: a not, or infix and looser, or a comparison in a comparison. */
  lemma LooserLeft(e: Expr)
    requires Plain(e) && Infix(e) && Enclosed(e, First)
    ensures e.Binary? || e.In?
    ensures Plain(e.x) && (e.x.Unary? ==> e.x.op == Not && ExprPrec(e) >= COMPARE > NOT) && (!e.x.Unary? ==> Infix(e.x))
    ensures ExprPrec(e.x) < ExprPrec(e) || ExprPrec(e.x) == ExprPrec(e) == COMPARE
    ensures e.x.In? ==> ExprPrec(e.x) == COMPARE
    ensures !e.x.Unary? ==> e.x.Binary? || e.x.In?
  {
    PlainPart(e, First);
    if e.x.Unary? { PlainPart(e.x, Last); }
    hide Plain;
  }

  lemma PlaceOf(toks: seq<Token>, i: nat, j: nat, k: nat, w: nat)
    requires Weighs(toks, i, j, w) && Weighs(toks, i, k, w) && Counts(toks, j) && Counts(toks, k)
    ensures j == k
  {
    SamePlace(toks, i, j, k);
  }

  /** Where a not is held nothing binds tighter than it. */
  lemma NotStops(toks: seq<Token>, i: nat, x: Expr, min: nat, y: Stand)
    requires Clean(toks) && x.Unary? && x.op == Not && Reads(toks, i, Print(x))
    requires i <= |toks| && Reaches(toks, i, min, y) && y.left == x
    ensures InfixPrec(toks, y.at) <= NOT
  {
    UnaryPrints(x);
    hide Reaches, Clean, Reads, Print, InfixPrec, Operand;
    ReadsAfter(toks, i, NotTok, Operand(x.x, NOT));
    OnlyAtOnce(toks, i, min, y);
    PrefixIs(toks, i, Not);
    ExprEnds(toks, i + 1, NOT);
  }

  /** Where an infix tree is held nothing binds tighter than its right side did. */
  lemma InfixStops(toks: seq<Token>, i: nat, x: Expr, min: nat, y: Stand)
    requires Clean(toks) && Plain(x) && Infix(x) && Reads(toks, i, Print(x))
    requires i <= |toks| && Reaches(toks, i, min, y) && y.left == x
    ensures ExprPrec(x) > min && y.compared == (ExprPrec(x) == COMPARE)
    ensures x.Binary? ==> InfixPrec(toks, y.at) <= ExprPrec(x)
  {
    hide Reaches, Clean, Plain, Reads, Print, InfixPrec, ParseExpr;
    FirstPrinted(toks, i, x);
    NotAtOnce(toks, i, i + |Operand(x.x, Needs(x, First))|, x);
    var v := FromTurn(toks, i, min, y);
    if x.Binary? { ExprEnds(toks, v.at + 1, ExprPrec(x)); }
  }

  /** An argument's text stands at its place, with a comma or the closing parenthesis after it. */
  lemma {:induction false} ArgReads(toks: seq<Token>, i: nat, es: seq<Expr>, n: nat, text: seq<Token>)
    requires n < |es| && Reads(toks, i, SeveralWith(es, n, text))
    requires Peek(toks, i + |SeveralWith(es, n, text)|) == RParen
    ensures var p := i + ArgAt(es, n);
            Reads(toks, p, text) && (Peek(toks, p + |text|) == Comma || Peek(toks, p + |text|) == RParen)
    decreases n
  {
    hide Reads, Print, Several, Peek;
    if n > 0 {
      ReadsAround(toks, i, Print(es[0]), Comma, SeveralWith(es[1..], n - 1, text));
      ArgReads(toks, i + |Print(es[0])| + 1, es[1..], n - 1, text);
    } else if |es| > 1 {
      ReadsAround(toks, i, text, Comma, Several(es[1..]));
    }
  }

  lemma CallReads(toks: seq<Token>, i: nat, e: Expr, n: nat, text: seq<Token>)
    requires e.Call? && n < |e.args| && Reads(toks, i, With(e, Arg(n), text))
    ensures var p := i + 2 + ArgAt(e.args, n);
            Reads(toks, p, text) && (Peek(toks, p + |text|) == Comma || Peek(toks, p + |text|) == RParen)
  {
    hide *;
    CallTokens(toks, i, e, n, text);
    ArgReads(toks, i + 2, e.args, n, text);
  }

  /** A tree printed without a pair that is not spare is never held where it is read. */
  lemma {:induction false} Never(toks: seq<Token>, i: nat, e: Expr, path: seq<Turn>, min: nat)
    requires Clean(toks) && Plain(e) && EnclosedAt(e, path) && Reads(toks, i, Bared(e, path))
    requires !Spare(e, path, min, InfixPrec(toks, i + |Bared(e, path)|))
    ensures i <= |toks| && !Passes(toks, i, min, e)
    decreases |path|, 1
  {
    hide Clean, Plain, Reads, Passes;
    match path[0]
    case First => FirstPlaceNever(toks, i, e, path, min);
    case Last =>
      if e.Binary? { LastPlaceNever(toks, i, e, path, min); } else { UnaryPlaceNever(toks, i, e, path, min); }
    case Arg(_) => ArgPlaceNever(toks, i, e, path, min);
  }

  /** The same of a part, with its own parentheses if it has them. */
  lemma {:induction false} PartNever(toks: seq<Token>, i: nat, o: Expr, rest: seq<Turn>, enclosed: bool, min: nat)
    requires Clean(toks) && Plain(o) && EnclosedAt(o, rest) && Reads(toks, i, Wrapped(enclosed, Bared(o, rest)))
    requires var end := i + |Wrapped(enclosed, Bared(o, rest))|;
             !Spare(o, rest, if enclosed then LOWEST else min, if enclosed then LOWEST else InfixPrec(toks, end))
    ensures i <= |toks| && !Passes(toks, i, min, o)
    decreases |rest|, 2
  {
    hide Clean, Plain, Reads, Passes, Spare, Bared, Weighs, EnclosedAt, InfixPrec;
    var text := Bared(o, rest);
    if enclosed {
      var q := i + 1 + |text|;
      ReadsAfter(toks, i, LParen, text + [RParen] + []);
      ReadsAround(toks, i + 1, text, RParen, []);
      SeparatorsStop(toks, q);
      BaredWeighs(toks, i + 1, o, rest);
      Never(toks, i + 1, o, rest, LOWEST);
      EnclosedNever(toks, i, q, o, min);
    } else {
      Never(toks, i, o, rest, min);
    }
  }

  lemma {:induction false} FirstPlaceNever(toks: seq<Token>, i: nat, e: Expr, path: seq<Turn>, min: nat)
    requires Clean(toks) && Plain(e) && EnclosedAt(e, path) && path[0].First? && Reads(toks, i, Bared(e, path))
    requires !Spare(e, path, min, InfixPrec(toks, i + |Bared(e, path)|))
    ensures i <= |toks| && !Passes(toks, i, min, e)
    decreases |path|, 0
  {
    hide *;
    FirstPlace(e, path, min, InfixPrec(toks, i + |Bared(e, path)|));
    var text := PartText(e, path);
    if |path| == 1 {
      FirstNever(toks, i, e, min);
    } else {
      FirstTextWeighs(toks, i, e, path);
      PartNever(toks, i, e.x, path[1..], Enclosed(e, First), min);
      FirstLift(toks, i, i + |text|, e, min);
    }
  }

  lemma FirstTextWeighs(toks: seq<Token>, i: nat, e: Expr, path: seq<Turn>)
    requires Plain(e) && EnclosedAt(e, path) && path[0].First? && Reads(toks, i, Bared(e, path))
    ensures var text := PartText(e, path);
            && Reads(toks, i, text) && Weighs(toks, i, i + |text|, Weight(e.x))
            && InfixPrec(toks, i + |text|) == ExprPrec(e)
  {
    var text := PartText(e, path);
    assert Bared(e, path) == With(e, First, text);
    hide Plain, Reads, Weighs, Print, InfixPrec, With, EnclosedAt, PartText, Bared;
    if Reads(toks, i, text) { PartTextWeighs(toks, i, e, path); }
    FirstWithWeighs(toks, i, e, text);
    PartTextWeighs(toks, i, e, path);
  }

  lemma {:induction false} LastPlaceNever(toks: seq<Token>, i: nat, e: Expr, path: seq<Turn>, min: nat)
    requires Clean(toks) && Plain(e) && e.Binary? && EnclosedAt(e, path) && path[0].Last?
    requires Reads(toks, i, Bared(e, path))
    requires !Spare(e, path, min, InfixPrec(toks, i + |Bared(e, path)|))
    ensures i <= |toks| && !Passes(toks, i, min, e)
    decreases |path|, 0
  {
    hide *;
    var text, k := PartText(e, path), i + |Operand(e.x, LeftMin(e.op))|;
    BinaryParts(e);
    LastPlace(e, path, min, InfixPrec(toks, i + |Bared(e, path)|));
    LastReads(toks, i, e, text);
    PartTextWeighs(toks, k + 1, e, path);
    LastWithWeighs(toks, i, e, text);
    if |path| > 1 {
      PartNever(toks, k + 1, e.y, path[1..], Enclosed(e, Last), Prec(e.op));
    } else {
      LooseOrNot(toks, k + 1, e.y, Prec(e.op));
    }
    LastLift(toks, i, k, e, min);
  }

  /** A printed tree that binds no tighter than min, and is not a not before what lets it end. */
  lemma LooseOrNot(toks: seq<Token>, i: nat, o: Expr, min: nat)
    requires Clean(toks) && Plain(o) && Reads(toks, i, Print(o))
    requires if o.Unary? then o.op == Not && InfixPrec(toks, i + |Print(o)|) > NOT else Infix(o) && ExprPrec(o) <= min
    ensures i <= |toks| && !Passes(toks, i, min, o)
  {
    hide *;
    if o.Unary? { NotNever(toks, i, o, min); } else { LooseNever(toks, i, o, min); }
  }

  lemma {:induction false} UnaryPlaceNever(toks: seq<Token>, i: nat, e: Expr, path: seq<Turn>, min: nat)
    requires Clean(toks) && Plain(e) && e.Unary? && EnclosedAt(e, path) && path[0].Last?
    requires Reads(toks, i, Bared(e, path))
    requires !Spare(e, path, min, InfixPrec(toks, i + |Bared(e, path)|))
    ensures i <= |toks| && !Passes(toks, i, min, e)
    decreases |path|, 0
  {
    hide *;
    var text := PartText(e, path);
    UnaryParts(e);
    LastPlace(e, path, min, InfixPrec(toks, i + |Bared(e, path)|));
    UnaryReads(toks, i, e, text);
    if |path| > 1 {
      PartNever(toks, i + 1, e.x, path[1..], Enclosed(e, Last), Prec(e.op));
    } else {
      LooseOrNot(toks, i + 1, e.x, Prec(e.op));
    }
    UnaryLift(toks, i, e, min);
  }

  /** What a path that turns left first is about. */
  lemma FirstPlace(e: Expr, path: seq<Turn>, min: nat, after: nat)
    requires Plain(e) && EnclosedAt(e, path) && path[0].First?
    ensures path != [] && HasPart(e, First) && Infix(e) && Plain(e.x) && Part(e, First) == e.x
    ensures Bared(e, path) == With(e, First, PartText(e, path))
    ensures |path| == 1 ==>
              && Enclosed(e, First) && PartText(e, path) == Print(e.x)
              && Spare(e, path, min, after) == (e.x.In? && ExprPrec(e) > COMPARE && min < COMPARE)
    ensures |path| > 1 ==>
              var enclosed := Enclosed(e, First);
              && EnclosedAt(e.x, path[1..]) && PartText(e, path) == Wrapped(enclosed, Bared(e.x, path[1..]))
              && Spare(e, path, min, after) ==
                 Spare(e.x, path[1..], if enclosed then LOWEST else min, if enclosed then LOWEST else ExprPrec(e))
              && (!enclosed ==> (Infix(e.x) ==> ExprPrec(e.x) >= ExprPrec(e)) && ExprPrec(e.x) >= ExprPrec(e))
              && (!enclosed && ExprPrec(e) == COMPARE ==> ExprPrec(e.x) > COMPARE)
  {
    PlainPart(e, First);
  }

  /** What a path that turns right first is about. */
  lemma LastPlace(e: Expr, path: seq<Turn>, min: nat, after: nat)
    requires Plain(e) && EnclosedAt(e, path) && path[0].Last?
    ensures path != [] && HasPart(e, Last) && Bared(e, path) == With(e, Last, PartText(e, path))
    ensures (e.Binary? || e.Unary?) && Part(e, Last) == if e.Binary? then e.y else e.x
    ensures var o := Part(e, Last);
            Plain(o) && (!Enclosed(e, Last) ==> ExprPrec(o) >= Prec(e.op) && (Infix(o) ==> ExprPrec(o) > Prec(e.op)))
    ensures |path| == 1 ==>
              var o := Part(e, Last);
              && PartText(e, path) == Print(o) && Spare(e, path, min, after) == (o.Unary? && after <= NOT)
              && (o.Unary? ==> o.op == Not && ExprPrec(o) == NOT)
              && (!o.Unary? ==> Infix(o) && ExprPrec(o) <= Prec(e.op))
    ensures |path| > 1 ==>
              var o, enclosed := Part(e, Last), Enclosed(e, Last);
              && EnclosedAt(o, path[1..]) && PartText(e, path) == Wrapped(enclosed, Bared(o, path[1..]))
              && Spare(e, path, min, after) ==
                 Spare(o, path[1..], if enclosed then LOWEST else Prec(e.op), if enclosed then LOWEST else after)
  {
    PlainPart(e, Last);
    var o := Part(e, Last);
    if o.Unary? { PlainPart(o, Last); }
    hide Plain, Print;
  }

  /** What a path into an argument is about. */
  lemma ArgPlace(e: Expr, path: seq<Turn>, min: nat, after: nat)
    requires Plain(e) && EnclosedAt(e, path) && path[0].Arg?
    ensures e.Call? && path[0].n < |e.args| && |path| > 1 && (forall k :: 0 <= k < |e.args| ==> Plain(e.args[k]))
    ensures var o, rest := e.args[path[0].n], path[1..];
            && EnclosedAt(o, rest) && PartText(e, path) == Bared(o, rest) == Wrapped(false, Bared(o, rest))
            && Bared(e, path) == With(e, path[0], PartText(e, path))
            && Spare(e, path, min, after) == Spare(o, rest, LOWEST, LOWEST)
  {
    PlainPart(e, path[0]);
  }

  lemma {:induction false} ArgPlaceNever(toks: seq<Token>, i: nat, e: Expr, path: seq<Turn>, min: nat)
    requires Clean(toks) && Plain(e) && EnclosedAt(e, path) && path[0].Arg? && Reads(toks, i, Bared(e, path))
    requires !Spare(e, path, min, InfixPrec(toks, i + |Bared(e, path)|))
    ensures i <= |toks| && !Passes(toks, i, min, e)
    decreases |path|, 0
  {
    hide *;
    ArgPlace(e, path, min, InfixPrec(toks, i + |Bared(e, path)|));
    var text, n := PartText(e, path), path[0].n;
    var p := i + 2 + ArgAt(e.args, n);
    CallReads(toks, i, e, n, text);
    SeparatorsStop(toks, p + |text|);
    PartNever(toks, p, e.args[n], path[1..], false, LOWEST);
    CallLift(toks, i, e, n, text, min);
  }

  // ---- what is still read --------------------------------------------------------------------------------

  /** A tree printed without a spare pair is read where it stands, as with it. */
  lemma {:induction false} Absorbed(toks: seq<Token>, i: nat, e: Expr, path: seq<Turn>, min: nat)
    requires IsLine(toks) && Plain(e) && EnclosedAt(e, path) && Reads(toks, i, Bared(e, path)) && Bare(e, min)
    requires InfixPrec(toks, i + |Bared(e, path)|) <= ExprPrec(e)
    requires Spare(e, path, min, InfixPrec(toks, i + |Bared(e, path)|))
    ensures var j := i + |Bared(e, path)|;
            j <= |toks| && ParseExpr(toks, i, min) == Fold(toks, j, min, e, Compares(e))
    decreases |path|, 1
  {
    hide IsLine, Plain, Reads, ParseExpr, Fold, InfixPrec, Spare, Bared;
    match path[0]
    case First => FirstAbsorbed(toks, i, e, path, min);
    case Last => if e.Binary? { LastAbsorbed(toks, i, e, path, min); } else { UnaryAbsorbed(toks, i, e, path, min); }
    case Arg(_) => ArgAbsorbed(toks, i, e, path, min);
  }

  /** The same of a part, with its own parentheses if it has them. */
  lemma {:induction false} PartAbsorbed(toks: seq<Token>, i: nat, o: Expr, rest: seq<Turn>, enclosed: bool, min: nat)
    requires IsLine(toks) && Plain(o) && EnclosedAt(o, rest) && Reads(toks, i, Wrapped(enclosed, Bared(o, rest)))
    requires var after := InfixPrec(toks, i + |Wrapped(enclosed, Bared(o, rest))|);
             && Spare(o, rest, if enclosed then LOWEST else min, if enclosed then LOWEST else after)
             && (!enclosed ==> Bare(o, min) && after <= ExprPrec(o))
    ensures var end := i + |Wrapped(enclosed, Bared(o, rest))|;
            i < end <= |toks| && ParseExpr(toks, i, min) == Fold(toks, end, min, o, !enclosed && Compares(o))
    decreases |rest|, 2
  {
    hide IsLine, Plain, Reads, Spare, Bared, EnclosedAt, InfixPrec, Fold, Weighs;
    var text := Bared(o, rest);
    if enclosed {
      var q := i + 1 + |text|;
      ReadsAfter(toks, i, LParen, text + [RParen] + []);
      ReadsAround(toks, i + 1, text, RParen, []);
      SeparatorsStop(toks, q);
      Absorbed(toks, i + 1, o, rest, LOWEST);
      Stops(toks, q, LOWEST, o, Compares(o));
      GroupParses(toks, i, o, q);
    } else {
      BaredWeighs(toks, i, o, rest);
      Ends(toks, i, i + |text|, Weight(o));
      Absorbed(toks, i, o, rest, min);
    }
  }

  /** Once its left side is read, an infix tree is. */
  lemma FirstGoesOn(toks: seq<Token>, i: nat, text: seq<Token>, e: Expr, min: nat, compared: bool)
    requires IsLine(toks) && Plain(e) && Infix(e) && Reads(toks, i, With(e, First, text)) && ExprPrec(e) > min
    requires InfixPrec(toks, i + |With(e, First, text)|) <= ExprPrec(e) && !(ExprPrec(e) == COMPARE && compared)
    requires i + |text| <= |toks| && ParseExpr(toks, i, min) == Fold(toks, i + |text|, min, e.x, compared)
    ensures var j := i + |With(e, First, text)|;
            j <= |toks| && ParseExpr(toks, i, min) == Fold(toks, j, min, e, Compares(e))
  {
    hide *;
    Shape(e);
    OperatorIs(e);
    FirstReads(toks, i, e, text);
    if e.In? { InGoesOn(toks, i + |text|, e, min); } else { BinaryGoesOn(toks, i + |text|, e, min, compared); }
  }

  lemma InGoesOn(toks: seq<Token>, k: nat, e: Expr, min: nat)
    requires IsLine(toks) && Plain(e) && e.In? && COMPARE > min
    requires k < |toks| && Peek(toks, k) == InTok && Reads(toks, k + 1, Rest(e))
    ensures var j := k + 1 + |Rest(e)|; j <= |toks| && Fold(toks, k, min, e.x, false) == Fold(toks, j, min, e, true)
  {
    hide *;
    RestIs(e);
    InParts(e);
    ListParses(toks, k + 1, e.list);
    FoldsIn(toks, k, min, e.x, e.list, k + 1 + |Print(e.list)|);
  }

  lemma BinaryGoesOn(toks: seq<Token>, k: nat, e: Expr, min: nat, compared: bool)
    requires IsLine(toks) && Plain(e) && e.Binary? && Prec(e.op) > min && !(Prec(e.op) == COMPARE && compared)
    requires k < |toks| && Peek(toks, k) == OpToken(e.op) && Reads(toks, k + 1, Rest(e))
    requires InfixPrec(toks, k + 1 + |Rest(e)|) <= Prec(e.op)
    ensures var j := k + 1 + |Rest(e)|;
            j <= |toks| && Fold(toks, k, min, e.x, compared) == Fold(toks, j, min, e, Prec(e.op) == COMPARE)
  {
    hide *;
    BinaryParts(e);
    RestIs(e);
    RightReads(toks, k + 1, e.y, Prec(e.op));
    LineGoesOn(toks, k + 1);
    Folds(toks, k, min, e.x, compared, e.op, e.y, k + 1 + |Rest(e)|);
  }

  /** A right operand, before what binds no tighter than its operator. */
  lemma RightReads(toks: seq<Token>, k: nat, y: Expr, p: nat)
    requires IsLine(toks) && Plain(y) && Reads(toks, k, Operand(y, p + 1))
    requires InfixPrec(toks, k + |Operand(y, p + 1)|) <= p
    ensures var j := k + |Operand(y, p + 1)|; k < j <= |toks| && ParseExpr(toks, k, p) == Some((y, j))
  {
    hide *;
    IsBare(y, p);
    OperandAbsorbs(toks, k, y, p + 1, p);
    Stops(toks, k + |Operand(y, p + 1)|, p, y, ExprPrec(y) >= p + 1 && Compares(y));
  }

  lemma {:induction false} FirstAbsorbed(toks: seq<Token>, i: nat, e: Expr, path: seq<Turn>, min: nat)
    requires IsLine(toks) && Plain(e) && EnclosedAt(e, path) && path[0].First? && Reads(toks, i, Bared(e, path))
    requires Bare(e, min)
    requires InfixPrec(toks, i + |Bared(e, path)|) <= ExprPrec(e)
    requires Spare(e, path, min, InfixPrec(toks, i + |Bared(e, path)|))
    ensures var j := i + |Bared(e, path)|;
            j <= |toks| && ParseExpr(toks, i, min) == Fold(toks, j, min, e, Compares(e))
    decreases |path|, 0
  {
    hide *;
    FirstPlace(e, path, min, InfixPrec(toks, i + |Bared(e, path)|));
    var text := PartText(e, path);
    FirstTextWeighs(toks, i, e, path);
    Ends(toks, i, i + |text|, Weight(e.x));
    IsBare(e, min);
    if |path| == 1 {
      InAbsorbs(toks, i, e.x, min);
      Shape(e.x);
      FirstGoesOn(toks, i, text, e, min, true);
    } else {
      IsBare(e.x, min);
      Shape(e.x);
      PartAbsorbed(toks, i, e.x, path[1..], Enclosed(e, First), min);
      FirstGoesOn(toks, i, text, e, min, !Enclosed(e, First) && Compares(e.x));
    }
  }

  /** Once its right side is read, a binary tree is. */
  lemma LastGoesOn(toks: seq<Token>, i: nat, text: seq<Token>, e: Expr, min: nat, compared: bool)
    requires IsLine(toks) && Plain(e) && e.Binary? && Reads(toks, i, With(e, Last, text)) && Prec(e.op) > min
    requires InfixPrec(toks, i + |With(e, Last, text)|) <= Prec(e.op)
    requires var k, j := i + |Operand(e.x, LeftMin(e.op))|, i + |With(e, Last, text)|;
             k + 1 < j <= |toks| && ParseExpr(toks, k + 1, Prec(e.op)) == Fold(toks, j, Prec(e.op), e.y, compared)
    ensures var j := i + |With(e, Last, text)|; ParseExpr(toks, i, min) == Fold(toks, j, min, e, Compares(e))
  {
    hide *;
    BinaryParts(e);
    Shape(e);
    var k, j := i + |Operand(e.x, LeftMin(e.op))|, i + |With(e, Last, text)|;
    LastReads(toks, i, e, text);
    var c := LeftReads(toks, i, e, min);
    LineGoesOn(toks, k + 1);
    Stops(toks, j, Prec(e.op), e.y, compared);
    Folds(toks, k, min, e.x, c, e.op, e.y, j);
  }

  /** A left operand, before its operator. */
  lemma LeftReads(toks: seq<Token>, i: nat, e: Expr, min: nat) returns (compared: bool)
    requires IsLine(toks) && Plain(e) && e.Binary? && Prec(e.op) > min && Reads(toks, i, Operand(e.x, LeftMin(e.op)))
    requires Peek(toks, i + |Operand(e.x, LeftMin(e.op))|) == OpToken(e.op)
    ensures var k := i + |Operand(e.x, LeftMin(e.op))|;
            k <= |toks|
              && ParseExpr(toks, i, min) == Fold(toks, k, min, e.x, compared) && !(Prec(e.op) == COMPARE && compared)
  {
    hide *;
    BinaryParts(e);
    Shape(e);
    Shape(e.x);
    IsBare(e.x, min);
    OperatorBinds(toks, i + |Operand(e.x, LeftMin(e.op))|, e.op);
    OperandAbsorbs(toks, i, e.x, LeftMin(e.op), min);
    compared := ExprPrec(e.x) >= LeftMin(e.op) && Compares(e.x);
  }

  lemma {:induction false} LastAbsorbed(toks: seq<Token>, i: nat, e: Expr, path: seq<Turn>, min: nat)
    requires IsLine(toks) && Plain(e) && e.Binary? && EnclosedAt(e, path) && path[0].Last? && Bare(e, min)
    requires Reads(toks, i, Bared(e, path)) && InfixPrec(toks, i + |Bared(e, path)|) <= ExprPrec(e)
    requires Spare(e, path, min, InfixPrec(toks, i + |Bared(e, path)|))
    ensures var j := i + |Bared(e, path)|;
            j <= |toks| && ParseExpr(toks, i, min) == Fold(toks, j, min, e, Compares(e))
    decreases |path|, 0
  {
    hide *;
    var text, k, j := PartText(e, path), i + |Operand(e.x, LeftMin(e.op))|, i + |Bared(e, path)|;
    BinaryParts(e);
    Shape(e);
    IsBare(e, min);
    LastPlace(e, path, min, InfixPrec(toks, j));
    LastReads(toks, i, e, text);
    PartTextWeighs(toks, k + 1, e, path);
    Ends(toks, k + 1, j, Weight(e.y));
    IsBare(e.y, Prec(e.op));
    Shape(e.y);
    if |path| == 1 {
      Absorbs(toks, k + 1, e.y, Prec(e.op));
      LastGoesOn(toks, i, text, e, min, Compares(e.y));
    } else {
      PartAbsorbed(toks, k + 1, e.y, path[1..], Enclosed(e, Last), Prec(e.op));
      LastGoesOn(toks, i, text, e, min, !Enclosed(e, Last) && Compares(e.y));
    }
  }

  lemma ExprStarts(toks: seq<Token>, i: nat, min: nat, e: Expr, j: nat)
    requires i <= |toks| && ParsePrefix(toks, i) == Some((e, j))
    ensures j <= |toks| && ParseExpr(toks, i, min) == Fold(toks, j, min, e, false)
  {
    hide ParsePrefix, Fold;
  }

  /** Once its operand is read, a prefix operator's tree is. */
  lemma UnaryGoesOn(toks: seq<Token>, i: nat, text: seq<Token>, e: Expr, min: nat, compared: bool)
    requires IsLine(toks) && Plain(e) && e.Unary? && Reads(toks, i, With(e, Last, text))
    requires InfixPrec(toks, i + |With(e, Last, text)|) <= Prec(e.op)
    requires var j := i + 1 + |text|;
             i + 1 < j <= |toks| && ParseExpr(toks, i + 1, Prec(e.op)) == Fold(toks, j, Prec(e.op), e.x, compared)
    ensures var j := i + |With(e, Last, text)|;
            j <= |toks| && ParseExpr(toks, i, min) == Fold(toks, j, min, e, false)
  {
    PlainPart(e, Last);
    hide IsLine, Plain, Reads, InfixPrec, Fold, ParseExpr, ParsePrefix, With, Peek, PartAt;
    UnaryReads(toks, i, e, text);
    var j := i + 1 + |text|;
    Stops(toks, j, Prec(e.op), e.x, compared);
    LineGoesOn(toks, i + 1);
    PrefixParses(toks, i, e.op, e.x, j);
    ExprStarts(toks, i, min, e, j);
  }

  lemma {:induction false} UnaryAbsorbed(toks: seq<Token>, i: nat, e: Expr, path: seq<Turn>, min: nat)
    requires IsLine(toks) && Plain(e) && e.Unary? && EnclosedAt(e, path) && path[0].Last?
    requires Reads(toks, i, Bared(e, path)) && InfixPrec(toks, i + |Bared(e, path)|) <= ExprPrec(e)
    requires Spare(e, path, min, InfixPrec(toks, i + |Bared(e, path)|))
    ensures var j := i + |Bared(e, path)|;
            j <= |toks| && ParseExpr(toks, i, min) == Fold(toks, j, min, e, Compares(e))
    decreases |path|, 0
  {
    hide *;
    var text, j, p := PartText(e, path), i + |Bared(e, path)|, Prec(e.op);
    UnaryParts(e);
    Shape(e);
    LastPlace(e, path, min, InfixPrec(toks, j));
    UnaryReads(toks, i, e, text);
    PartTextWeighs(toks, i + 1, e, path);
    Ends(toks, i + 1, j, Weight(e.x));
    IsBare(e.x, p);
    Shape(e.x);
    if |path| == 1 {
      Absorbs(toks, i + 1, e.x, p);
      UnaryGoesOn(toks, i, text, e, min, Compares(e.x));
    } else {
      PartAbsorbed(toks, i + 1, e.x, path[1..], Enclosed(e, Last), p);
      UnaryGoesOn(toks, i, text, e, min, !Enclosed(e, Last) && Compares(e.x));
    }
  }

  lemma {:induction false} ArgAbsorbed(toks: seq<Token>, i: nat, e: Expr, path: seq<Turn>, min: nat)
    requires IsLine(toks) && Plain(e) && EnclosedAt(e, path) && path[0].Arg?
    requires Reads(toks, i, Bared(e, path)) && Spare(e, path, min, InfixPrec(toks, i + |Bared(e, path)|))
    ensures var j := i + |Bared(e, path)|;
            j <= |toks| && ParseExpr(toks, i, min) == Fold(toks, j, min, e, Compares(e))
    decreases |path|, 0
  {
    hide *;
    ArgPlace(e, path, min, InfixPrec(toks, i + |Bared(e, path)|));
    var text, n, p := PartText(e, path), path[0].n, i + 2 + ArgAt(e.args, path[0].n);
    CallReads(toks, i, e, n, text);
    SeparatorsStop(toks, p + |text|);
    IsBare(e.args[n], LOWEST);
    Shape(e.args[n]);
    PartAbsorbed(toks, p, e.args[n], path[1..], false, LOWEST);
    Stops(toks, p + |text|, LOWEST, e.args[n], Compares(e.args[n]));
    CallGoesOn(toks, i, e, n, text, min);
  }

  /** Once one of its arguments is read at its place, a call is. */
  lemma CallGoesOn(toks: seq<Token>, i: nat, e: Expr, n: nat, text: seq<Token>, min: nat)
    requires IsLine(toks) && e.Call? && n < |e.args| && (forall k :: 0 <= k < |e.args| ==> Plain(e.args[k]))
    requires Reads(toks, i, With(e, Arg(n), text))
    requires var p := i + 2 + ArgAt(e.args, n);
             p < p + |text| <= |toks| && ParseExpr(toks, p, LOWEST) == Some((e.args[n], p + |text|))
    ensures var j := i + |With(e, Arg(n), text)|;
            j <= |toks| && ParseExpr(toks, i, min) == Fold(toks, j, min, e, Compares(e))
  {
    hide *;
    var all := SeveralWith(e.args, n, text);
    CallWithIs(e, n, text);
    ReadsAfter(toks, i, Ident(e.name), [LParen] + (all + [RParen]));
    ReadsAfter(toks, i + 1, LParen, all + [RParen]);
    ArgsRead(toks, i + 2, e.args, n, text);
    NotClosed(toks, i + 2);
    CallIsRead(toks, i, e, i + 3 + |all|);
    Shape(e);
    ExprStarts(toks, i, min, e, i + 3 + |all|);
  }

  lemma CallIsRead(toks: seq<Token>, i: nat, e: Expr, j: nat)
    requires e.Call? && i + 2 < |toks| && Peek(toks, i) == Ident(e.name) && Peek(toks, i + 1) == LParen
    requires !Peek(toks, i + 2).RParen?
    requires ParseArgs(toks, i + 2) == Some((e.args, j))
    ensures ParsePrefix(toks, i) == Some((e, j))
  {
    hide ParseArgs, ParseExpr;
  }

  lemma {:induction false} ArgsRead(toks: seq<Token>, i: nat, es: seq<Expr>, n: nat, text: seq<Token>)
    requires IsLine(toks) && n < |es| && (forall k :: 0 <= k < |es| ==> Plain(es[k]))
    requires Reads(toks, i, SeveralWith(es, n, text) + [RParen])
    requires var p := i + ArgAt(es, n);
             p < p + |text| <= |toks| && ParseExpr(toks, p, LOWEST) == Some((es[n], p + |text|))
    ensures i < |toks| && ParseArgs(toks, i) == Some((es, i + |SeveralWith(es, n, text)| + 1))
    decreases n
  {
    hide IsLine, Plain, Reads, ParseExpr, ParseArgs, Print, Several, InfixPrec, Prec, ExprPrec, Weight;
    if n > 0 {
      var rest := SeveralWith(es[1..], n - 1, text);
      var k := i + |Print(es[0])|;
      assert SeveralWith(es, n, text) + [RParen] == Print(es[0]) + [Comma] + (rest + [RParen]);
      ReadsAround(toks, i, Print(es[0]), Comma, rest + [RParen]);
      SeparatorsStop(toks, k);
      ArgParses(toks, i, es[0]);
      ArgsRead(toks, k + 1, es[1..], n - 1, text);
      MoreArgs(toks, i, es, k, k + 1 + |rest| + 1);
    } else if |es| > 1 {
      var k := i + |text|;
      assert SeveralWith(es, n, text) + [RParen] == text + [Comma] + (Several(es[1..]) + [RParen]);
      ReadsAround(toks, i, text, Comma, Several(es[1..]) + [RParen]);
      ArgsParse(toks, k + 1, es[1..]);
      MoreArgs(toks, i, es, k, k + 1 + |Several(es[1..])| + 1);
    } else {
      ReadsBoth(toks, i, text, [RParen]);
      ReadsOne(toks, i + |text|, RParen);
      LastArg(toks, i, es, i + |text|);
    }
  }

  lemma MoreArgs(toks: seq<Token>, i: nat, es: seq<Expr>, k: nat, j: nat)
    requires |es| > 1 && i < k < |toks| && ParseExpr(toks, i, LOWEST) == Some((es[0], k)) && Peek(toks, k) == Comma
    requires ParseArgs(toks, k + 1) == Some((es[1..], j))
    ensures ParseArgs(toks, i) == Some((es, j))
  {
    hide ParseExpr;
    assert [es[0]] + es[1..] == es;
  }

  lemma LastArg(toks: seq<Token>, i: nat, es: seq<Expr>, k: nat)
    requires |es| == 1 && i < k < |toks| && ParseExpr(toks, i, LOWEST) == Some((es[0], k)) && Peek(toks, k) == RParen
    ensures ParseArgs(toks, i) == Some((es, k + 1))
  {
    hide ParseExpr;
    assert [es[0]] == es;
  }

  // ---- the condition -----------------------------------------------------------------------------------------

  /** Wherever in a condition the printer writes a pair of parentheses, in arguments of calls too: the line without
  that pair still parses to the condition if and only if the pair is spare. */
  lemma NeededOrSpare(e: Expr, path: seq<Turn>)
    requires Plain(e) && EnclosedAt(e, path)
    ensures Parse(Bared(e, path)) == Some(e) <==> Spare(e, path, LOWEST, LOWEST)
  {
    hide Plain, ParseExpr, InfixPrec, Bared, EnclosedAt, Spare, Fold, Passes, Reaches, Reads;
    var toks := Bared(e, path);
    BaredTidy(e, path);
    Whole(toks);
    SeparatorsStop(toks, |toks|);
    if Spare(e, path, LOWEST, LOWEST) {
      Absorbed(toks, 0, e, path, LOWEST);
      Stops(toks, |toks|, LOWEST, e, Compares(e));
    } else {
      Never(toks, 0, e, path, LOWEST);
      if ParseExpr(toks, 0, LOWEST).Some? { var c := ExprPasses(toks, 0, LOWEST); }
    }
  }

  /** No pair in the tree is spare, found by one walk down it. */
  predicate Tight(e: Expr, min: nat, after: nat)
    decreases e, 1
  {
    match e
    case Binary(_, _, _) => PartTight(e, First, min, after) && PartTight(e, Last, min, after)
    case Unary(_, _) => PartTight(e, Last, min, after)
    case In(_, _) => PartTight(e, First, min, after)
    case Call(_, args) => forall n :: 0 <= n < |args| ==> Tight(args[n], LOWEST, LOWEST)
    case _ => true
  }

  predicate PartTight(e: Expr, turn: Turn, min: nat, after: nat)
    requires HasPart(e, turn) && !turn.Arg?
    decreases e, 0
  {
    && (Enclosed(e, turn) ==> !SpareHere(e, turn, min, after))
    && Tight(Part(e, turn), PartMin(e, turn, min), PartAfter(e, turn, after))
  }

  ghost predicate NoneSpare(e: Expr, min: nat, after: nat)
  {
    forall path :: EnclosedAt(e, path) ==> !Spare(e, path, min, after)
  }

  ghost predicate NoneSpareBelow(e: Expr, turn: Turn, min: nat, after: nat) {
    forall path :: EnclosedAt(e, path) && path[0] == turn ==> !Spare(e, path, min, after)
  }

  lemma BelowIsPart(e: Expr, turn: Turn, min: nat, after: nat)
    requires HasPart(e, turn)
    ensures NoneSpareBelow(e, turn, min, after) <==>
            (Enclosed(e, turn) ==> !SpareHere(e, turn, min, after))
            && NoneSpare(Part(e, turn), PartMin(e, turn, min), PartAfter(e, turn, after))
  {
    hide Enclosed, SpareHere, PartMin, PartAfter;
    var o, m, n := Part(e, turn), PartMin(e, turn, min), PartAfter(e, turn, after);
    if NoneSpareBelow(e, turn, min, after) {
      if Enclosed(e, turn) { assert EnclosedAt(e, [turn]); }
      forall rest | EnclosedAt(o, rest) ensures !Spare(o, rest, m, n) {
        var path := [turn] + rest;
        assert path[1..] == rest;
        assert EnclosedAt(e, path);
      }
    }
    if (Enclosed(e, turn) ==> !SpareHere(e, turn, min, after)) && NoneSpare(o, m, n) {
      forall path | EnclosedAt(e, path) && path[0] == turn ensures !Spare(e, path, min, after) {
        if |path| > 1 { assert EnclosedAt(o, path[1..]); }
      }
    }
  }

  lemma {:induction false} TightIsNoneSpare(e: Expr, min: nat, after: nat)
    ensures Tight(e, min, after) <==> NoneSpare(e, min, after)
    decreases e, 1
  {
    hide Enclosed, SpareHere, PartMin, PartAfter, Spare;
    forall turn | HasPart(e, turn) ensures TightBelow(e, turn, min, after) <==> NoneSpareBelow(e, turn, min, after) {
      TightIsNoneBelow(e, turn, min, after);
    }
    TightEverywhere(e, min, after);
    NoneEverywhere(e, min, after);
  }

  predicate TightBelow(e: Expr, turn: Turn, min: nat, after: nat)
    requires HasPart(e, turn)
  {
    && (Enclosed(e, turn) ==> !SpareHere(e, turn, min, after))
    && Tight(Part(e, turn), PartMin(e, turn, min), PartAfter(e, turn, after))
  }

  lemma {:induction false} TightIsNoneBelow(e: Expr, turn: Turn, min: nat, after: nat)
    requires HasPart(e, turn)
    ensures TightBelow(e, turn, min, after) <==> NoneSpareBelow(e, turn, min, after)
    decreases e, 0
  {
    TightIsNoneSpare(Part(e, turn), PartMin(e, turn, min), PartAfter(e, turn, after));
    BelowIsPart(e, turn, min, after);
    hide NoneSpareBelow, NoneSpare, Tight, Spare, SpareHere, PartMin, PartAfter;
  }

  lemma TightEverywhere(e: Expr, min: nat, after: nat)
    ensures Tight(e, min, after) <==> forall turn :: HasPart(e, turn) ==> TightBelow(e, turn, min, after)
  {
    hide SpareHere;
    match e
    case Call(_, args) =>
      forall n: nat | n < |args| ensures TightBelow(e, Arg(n), min, after) <==> Tight(args[n], LOWEST, LOWEST) {}
      if forall turn :: HasPart(e, turn) ==> TightBelow(e, turn, min, after) {
        forall n: nat | n < |args| ensures Tight(args[n], LOWEST, LOWEST) { assert HasPart(e, Arg(n)); }
      }
    case Binary(_, _, _) => assert HasPart(e, First) && HasPart(e, Last);
    case Unary(_, _) => assert HasPart(e, Last);
    case In(_, _) => assert HasPart(e, First);
    case _ =>
  }

  lemma NoneEverywhere(e: Expr, min: nat, after: nat)
    ensures NoneSpare(e, min, after) <==> forall turn :: HasPart(e, turn) ==> NoneSpareBelow(e, turn, min, after)
  {
    hide Spare;
    if forall turn :: HasPart(e, turn) ==> NoneSpareBelow(e, turn, min, after) {
      forall path | EnclosedAt(e, path) ensures !Spare(e, path, min, after) {
        assert NoneSpareBelow(e, path[0], min, after);
      }
    }
  }

  /** The printer writes only parentheses that are needed, each by itself, if and only if the tree is tight. */
  lemma OnlyNeeded(e: Expr)
    requires Plain(e)
    ensures Tight(e, LOWEST, LOWEST) <==> forall path :: EnclosedAt(e, path) ==> Parse(Bared(e, path)) != Some(e)
  {
    TightIsNoneSpare(e, LOWEST, LOWEST);
    hide Tight, Parse, Bared, EnclosedAt, Spare, Plain;
    if Tight(e, LOWEST, LOWEST) {
      forall path | EnclosedAt(e, path) ensures Parse(Bared(e, path)) != Some(e) { NeededOrSpare(e, path); }
    } else {
      var path :| EnclosedAt(e, path) && Spare(e, path, LOWEST, LOWEST);
      NeededOrSpare(e, path);
    }
  }

  // ---- one pair ------------------------------------------------------------------------------------------------

  /** The text around a part, whatever stands for it. */
  lemma Around(e: Expr, turn: Turn, u: seq<Token>, v: seq<Token>) returns (a: seq<Token>, c: seq<Token>)
    requires HasPart(e, turn)
    ensures With(e, turn, u) == a + u + c && With(e, turn, v) == a + v + c
  {
    hide *;
    PartAtIs(e, turn);
    match turn
    case First => a, c := [], [OperatorOf(e)] + Rest(e); FirstAround(e, u); FirstAround(e, v);
    case Last => a, c := Left(e), []; LastAround(e, u); LastAround(e, v);
    case Arg(n) =>
      a, c := AroundArg(e.args, n, u, v);
      ArgAround(e, n, u, a, c);
      ArgAround(e, n, v, a, c);
      a, c := [Ident(e.name), LParen] + a, c + [RParen];
  }

  /** What stands before the last part. */
  function Left(e: Expr): seq<Token> {
    if e.Binary? then Operand(e.x, LeftMin(e.op)) + [OpToken(e.op)] else if e.Unary? then [OpToken(e.op)] else []
  }

  lemma FirstAround(e: Expr, u: seq<Token>)
    requires HasPart(e, First)
    ensures With(e, First, u) == [] + u + ([OperatorOf(e)] + Rest(e))
  {
    hide Rest;
  }

  lemma LastAround(e: Expr, u: seq<Token>)
    requires HasPart(e, Last)
    ensures With(e, Last, u) == Left(e) + u + []
  {
    hide Operand;
  }

  lemma ArgAround(e: Expr, n: nat, u: seq<Token>, a: seq<Token>, c: seq<Token>)
    requires HasPart(e, Arg(n)) && SeveralWith(e.args, n, u) == a + u + c
    ensures With(e, Arg(n), u) == [Ident(e.name), LParen] + a + u + (c + [RParen])
  {
    hide SeveralWith;
  }

  lemma {:induction false} AroundArg(es: seq<Expr>, n: nat, u: seq<Token>, v: seq<Token>)
    returns (a: seq<Token>, c: seq<Token>)
    requires n < |es|
    ensures SeveralWith(es, n, u) == a + u + c && SeveralWith(es, n, v) == a + v + c
    decreases n
  {
    hide *;
    if n > 0 {
      a, c := AroundArg(es[1..], n - 1, u, v);
      NextArg(es, n, u, a, c);
      NextArg(es, n, v, a, c);
      a := Print(es[0]) + [Comma] + a;
    } else {
      a, c := [], if |es| == 1 then [] else [Comma] + Several(es[1..]);
      FirstArg(es, u);
      FirstArg(es, v);
    }
  }

  lemma FirstArg(es: seq<Expr>, u: seq<Token>)
    requires es != []
    ensures SeveralWith(es, 0, u) == [] + u + if |es| == 1 then [] else [Comma] + Several(es[1..])
  {
    hide Print, Several;
  }

  lemma NextArg(es: seq<Expr>, n: nat, u: seq<Token>, a: seq<Token>, c: seq<Token>)
    requires 0 < n < |es| && SeveralWith(es[1..], n - 1, u) == a + u + c
    ensures SeveralWith(es, n, u) == (Print(es[0]) + [Comma] + a) + u + c
  {
    hide Print, Several;
  }

  /** Bared is the printed condition without one pair of parentheses, and nothing else is changed. */
  lemma {:induction false} OnePairLess(e: Expr, path: seq<Turn>) returns (a: seq<Token>, m: seq<Token>, c: seq<Token>)
    requires EnclosedAt(e, path)
    ensures Print(e) == a + [LParen] + m + [RParen] + c && Bared(e, path) == a + m + c
    decreases |path|
  {
    hide Print, With;
    var turn, o := path[0], Part(e, path[0]);
    WithItsOwn(e, turn);
    WrappedOperand(o, Needs(e, turn));
    if |path| == 1 {
      m := Print(o);
      a, c := Around(e, turn, m, Wrapped(true, m));
    } else {
      var enclosed := Enclosed(e, turn);
      var b, d;
      b, m, d := OnePairLess(o, path[1..]);
      var u, v := Wrapped(enclosed, Bared(o, path[1..])), Wrapped(enclosed, Print(o));
      a, c := Around(e, turn, u, v);
      a, c := Nested(enclosed, a, b, m, d, c, Bared(o, path[1..]), Print(o));
    }
  }

  lemma Nested(enclosed: bool, a: seq<Token>, b: seq<Token>, m: seq<Token>, d: seq<Token>, c: seq<Token>,
      less: seq<Token>, whole: seq<Token>)
    returns (x: seq<Token>, z: seq<Token>)
    requires less == b + m + d && whole == b + [LParen] + m + [RParen] + d
    ensures a + Wrapped(enclosed, less) + c == x + m + z
    ensures a + Wrapped(enclosed, whole) + c == x + [LParen] + m + [RParen] + z
  {
    x, z := if enclosed then a + [LParen] + b else a + b, if enclosed then d + [RParen] + c else d + c;
  }
}
