/** Rule text: the lexer of a line and the printer's text, whose string escapes undo each other
(internal/rules/lexer.go, internal/rules/printer.go). A character is a Unicode scalar value, so a
string is valid UTF-8 text. Any lexical error is None. */
module Lexing {
  import opened Domain
  import opened Syntax
  import opened Parsing
  import opened Printing

  /** Unicode's letters and digits, and the decimal text of numbers. */
  datatype Alphabet = Alphabet(
    letter: char -> bool, digit: char -> bool, value: string -> Option<real>, decimal: real -> string)

  predicate IsDigit(c: char) { '0' <= c <= '9' }
  predicate IsAsciiStart(c: char) { c == '_' || 'a' <= c <= 'z' || 'A' <= c <= 'Z' }

  predicate NameStart(al: Alphabet, c: char) { if c as int < 128 then IsAsciiStart(c) else al.letter(c) }
  predicate NameChar(al: Alphabet, c: char) {
    if c as int < 128 then IsAsciiStart(c) || IsDigit(c) else al.letter(c) || al.digit(c)
  }

  /** How many characters of a name s starts with. */
  function NameLen(al: Alphabet, s: string): nat {
    if s != "" && NameChar(al, s[0]) then 1 + NameLen(al, s[1..]) else 0
  }

  function DigitsLen(s: string): nat {
    if s != "" && IsDigit(s[0]) then 1 + DigitsLen(s[1..]) else 0
  }

  function WordToken(w: string): Token {
    if w == "allow" then AllowTok else if w == "block" then BlockTok else if w == "review" then ReviewTok
    else if w == "shadow" then ShadowTok else if w == "if" then IfTok else if w == "and" then AndTok
    else if w == "or" then OrTok else if w == "not" then NotTok else if w == "in" then InTok
    else if w == "true" then TrueTok else if w == "false" then FalseTok else Ident(w)
  }

  // ---- strings ---------------------------------------------------------------------------

  function HexValue(c: char): Option<nat> {
    if IsDigit(c) then Some(c as int - '0' as int)
    else if 'a' <= c <= 'f' then Some(c as int - 'a' as int + 10)
    else if 'A' <= c <= 'F' then Some(c as int - 'A' as int + 10) else None
  }

  function HexDigit(v: nat): char
    requires v < 16
  {
    if v < 10 then ('0' as int + v) as char else ('a' as int + (v - 10)) as char
  }

  /** The scalar value four hexadecimal digits name. */
  function Hex4(s: string): Option<char> {
    if |s| < 4 then None
    else
      var a, b, c, d := HexValue(s[0]), HexValue(s[1]), HexValue(s[2]), HexValue(s[3]);
      if a.None? || b.None? || c.None? || d.None? then None
      else
        var v := 4096 * a.value + 256 * b.value + 16 * c.value + d.value;
        if v < 0xD800 || 0xE000 <= v < 0x10000 then Some(v as char) else None
  }

  /** The text up to the closing quote, decoded, and what comes after it. */
  function Unquote(s: string): (r: Option<(string, string)>)
    ensures r.Some? ==> |r.value.1| < |s|
    decreases |s|
  {
    if s == "" then None
    else if s[0] == '"' then Some(("", s[1..]))
    else if s[0] != '\\' then Then(s[0], Unquote(s[1..]))
    else if |s| < 2 then None
    else if s[1] == '"' || s[1] == '\\' then Then(s[1], Unquote(s[2..]))
    else if s[1] == 'n' then Then('\n', Unquote(s[2..]))
    else if s[1] == 't' then Then('\t', Unquote(s[2..]))
    else if s[1] == 'r' then Then('\r', Unquote(s[2..]))
    else if s[1] == 'u' && Hex4(s[2..]).Some? then Then(Hex4(s[2..]).value, Unquote(s[6..]))
    else None
  }

  function Then(c: char, r: Option<(string, string)>): Option<(string, string)> {
    if r.None? then None else Some(([c] + r.value.0, r.value.1))
  }

  /** A number below 65536 in four hexadecimal digits. */
  function HexText(v: nat): string
    requires v < 0x10000
  {
    [HexDigit(v / 4096), HexDigit(v / 256 % 16), HexDigit(v / 16 % 16), HexDigit(v % 16)]
  }

  const RUNE_ERROR := 0xFFFD

  /** One character of a string literal, escaped where the lexer requires it and for control characters. */
  function Escape(c: char): string {
    if c == '"' then "\\\"" else if c == '\\' then "\\\\" else if c == '\n' then "\\n" else if c == '\t' then "\\t"
    else if c == '\r' then "\\r"
    else if c as int < 0x20 || c as int == 0x7f || c as int == RUNE_ERROR then
      "\\u" + HexText(c as int)
    else [c]
  }

  function Escaped(s: string): string { if s == "" then "" else Escape(s[0]) + Escaped(s[1..]) }

  function Quote(s: string): string { "\"" + Escaped(s) + "\"" }

  // ---- lines -----------------------------------------------------------------------------

  /** Tokens and then what follows. */
  function Ahead(toks: seq<Token>, rest: Option<seq<Token>>): Option<seq<Token>> {
    if rest.None? then None else Some(toks + rest.value)
  }

  /** How long the number is that s starts with: digits, with a fraction if a point and a digit follow. */
  function NumberLen(s: string): (n: nat)
    ensures n <= |s|
  {
    DigitsBound(s);
    var n := DigitsLen(s);
    if n + 1 < |s| && s[n] == '.' && IsDigit(s[n + 1]) then
      DigitsBound(s[n + 1..]);
      n + 1 + DigitsLen(s[n + 1..])
    else n
  }

  lemma {:induction false} DigitsBound(s: string)
    ensures DigitsLen(s) <= |s|
  {
    if s != "" { DigitsBound(s[1..]); }
  }

  lemma {:induction false} NameBound(al: Alphabet, s: string)
    ensures NameLen(al, s) <= |s|
  {
    if s != "" { NameBound(al, s[1..]); }
  }

  function Two(s: string): string { if |s| >= 2 then s[..2] else "" }

  /** Operators and brackets; what other languages write for them is an error here. */
  function Punct(s: string): Option<(Token, nat)>
    requires s != ""
  {
    var two := Two(s);
    if two == "!=" then Some((OpTok(Ne), 2))
    else if two == "<=" then Some((OpTok(Le), 2))
    else if two == ">=" then Some((OpTok(Ge), 2))
    else if two == "==" || two == "<>" || two == "&&" || two == "||" || two == "=<" || two == "=>" then None
    else if s[0] == '=' then Some((OpTok(Eq), 1))
    else if s[0] == '<' then Some((OpTok(Lt), 1))
    else if s[0] == '>' then Some((OpTok(Gt), 1))
    else if s[0] == '+' then Some((OpTok(Add), 1))
    else if s[0] == '-' then Some((OpTok(Sub), 1))
    else if s[0] == '*' then Some((OpTok(Mul), 1))
    else if s[0] == '/' then Some((OpTok(Div), 1))
    else if s[0] == '(' then Some((LParen, 1))
    else if s[0] == ')' then Some((RParen, 1))
    else if s[0] == '[' then Some((LBrack, 1))
    else if s[0] == ']' then Some((RBrack, 1))
    else if s[0] == ',' then Some((Comma, 1))
    else None
  }

  function Lex(al: Alphabet, s: string): Option<seq<Token>>
    decreases |s|
  {
    if s == "" then Some([])
    else if s[0] == ' ' || s[0] == '\t' || s[0] == '\r' then Lex(al, s[1..])
    else if s[0] == '#' then Some([])
    else if NameStart(al, s[0]) then LexWord(al, s)
    else if IsDigit(s[0]) then LexNumber(al, s)
    else if s[0] == '"' then
      var r := Unquote(s[1..]);
      if r.None? then None else Ahead([StringTok(r.value.0)], Lex(al, r.value.1))
    else if s[0] == ':' then LexAttr(al, s)
    else if s[0] == '@' then LexList(al, s)
    else
      var r := Punct(s);
      if r.None? || r.value.1 > |s| || r.value.1 == 0 then None else Ahead([r.value.0], Lex(al, s[r.value.1..]))
  }

  function LexWord(al: Alphabet, s: string): Option<seq<Token>>
    requires s != ""
    decreases |s|, 0
  {
    NameBound(al, s);
    var n := NameLen(al, s);
    if n == 0 then None else Ahead([WordToken(s[..n])], Lex(al, s[n..]))
  }

  function LexNumber(al: Alphabet, s: string): Option<seq<Token>>
    requires s != ""
    decreases |s|, 0
  {
    var n := NumberLen(s);
    if n == 0 then None
    else if n < |s| && (IsAsciiStart(s[n]) || IsDigit(s[n]) || s[n] == '.') then None
    else
      var v := al.value(s[..n]);
      if v.None? then None else Ahead([NumberTok(v.value)], Lex(al, s[n..]))
  }

  /** :name: */
  function LexAttr(al: Alphabet, s: string): Option<seq<Token>>
    requires s != ""
    decreases |s|, 0
  {
    NameBound(al, s[1..]);
    var n := NameLen(al, s[1..]);
    if n == 0 || n + 1 >= |s| || s[n + 1] != ':' then None
    else Ahead([AttrTok(s[1..][..n])], Lex(al, s[n + 2..]))
  }

  /** @name */
  function LexList(al: Alphabet, s: string): Option<seq<Token>>
    requires s != ""
    decreases |s|, 0
  {
    NameBound(al, s[1..]);
    var n := NameLen(al, s[1..]);
    if n == 0 then None else Ahead([ListTok(s[1..][..n])], Lex(al, s[1..][n..]))
  }

  /** A condition written on one line. */
  function ParseText(al: Alphabet, s: string): Option<Expr> {
    if '\n' in s then None
    else
      var toks := Lex(al, s);
      if toks.None? then None else Parse(toks.value)
  }

  // ---- printed text ----------------------------------------------------------------------

  function OpText(op: Op): string {
    match op
    case Or => "or"
    case And => "and"
    case Not => "not"
    case Eq => "="
    case Ne => "!="
    case Lt => "<"
    case Le => "<="
    case Gt => ">"
    case Ge => ">="
    case Add => "+"
    case Sub => "-"
    case Mul => "*"
    case Div => "/"
    case Neg => "-"
  }

  /** The canonical text: single spaces around infix operators, and the parentheses Printing puts. */
  function Text(al: Alphabet, e: Expr): string
    decreases e, 0
  {
    match e
    case Attr(name) => ":" + name + ":"
    case NumberLit(v) => al.decimal(v)
    case StringLit(s) => Quote(s)
    case BoolLit(b) => if b then "true" else "false"
    case Unary(op, x) => (if op == Not then "not " else "-") + OperandText(al, x, Prec(op))
    case Binary(op, x, y) => OperandText(al, x, LeftMin(op)) + " " + OpText(op) + " " + OperandText(al, y, Prec(op) + 1)
    case In(x, list) => OperandText(al, x, COMPARE + 1) + " in " + Text(al, list)
    case Call(name, args) => name + "(" + SeveralText(al, args) + ")"
    case ListRef(name) => "@" + name
    case ListLit(items) => "[" + SeveralText(al, items) + "]"
  }

  function OperandText(al: Alphabet, e: Expr, bare: nat): string
    decreases e, 1
  {
    if ExprPrec(e) < bare then "(" + Text(al, e) + ")" else Text(al, e)
  }

  function SeveralText(al: Alphabet, es: seq<Expr>): string
    decreases es
  {
    if es == [] then ""
    else if |es| == 1 then Text(al, es[0])
    else Text(al, es[0]) + ", " + SeveralText(al, es[1..])
  }

  predicate IsName(al: Alphabet, name: string) { name != "" && NameLen(al, name) == |name| }

  /** A word the parser takes for a function's name. */
  predicate IsWord(al: Alphabet, name: string) { IsName(al, name) && NameStart(al, name[0]) && WordToken(name).Ident? }

  predicate IsNumber(al: Alphabet, v: real) {
    var t := al.decimal(v);
    t != "" && IsDigit(t[0]) && NumberLen(t) == |t| && al.value(t) == Some(v)
  }

  /** A token the lexer can have read. */
  predicate Readable(al: Alphabet, t: Token) {
    match t
    case AttrTok(name) => IsName(al, name)
    case ListTok(name) => IsName(al, name)
    case Ident(name) => IsWord(al, name)
    case NumberTok(v) => IsNumber(al, v)
    case _ => true
  }

  /** Every name is one the lexer reads whole, and every number's text reads back as the number. */
  predicate Spelled(al: Alphabet, e: Expr) { MadeOf(e, t => Readable(al, t)) }

  // ---- escapes ------------------------------------------------------------------------------

  lemma HexBack(v: nat)
    requires v < 16
    ensures HexValue(HexDigit(v)) == Some(v)
  {}

  lemma DigitsOf(v: nat)
    requires v < 0x10000
    ensures v / 4096 < 16 && v == 4096 * (v / 4096) + 256 * (v / 256 % 16) + 16 * (v / 16 % 16) + v % 16
  {
    assert v / 16 / 16 == v / 256;
    assert v / 256 / 16 == v / 4096;
  }

  lemma Hex4Of(s: string, a: nat, b: nat, c: nat, d: nat)
    requires |s| >= 4 && a < 16 && b < 16 && c < 16 && d < 16
    requires s[0] == HexDigit(a) && s[1] == HexDigit(b) && s[2] == HexDigit(c) && s[3] == HexDigit(d)
    ensures var v := 4096 * a + 256 * b + 16 * c + d;
            Hex4(s) == if v < 0xD800 || 0xE000 <= v < 0x10000 then Some(v as char) else None
  {
    HexBack(a);
    HexBack(b);
    HexBack(c);
    HexBack(d);
    hide HexValue, HexDigit;
  }

  lemma Hex4Back(c: char, rest: string)
    requires c as int < 0x10000
    ensures Hex4(HexText(c as int) + rest) == Some(c)
  {
    var v := c as int;
    DigitsOf(v);
    Hex4Of(HexText(v) + rest, v / 4096, v / 256 % 16, v / 16 % 16, v % 16);
    hide HexDigit, Hex4;
  }

  lemma EscapeBack(c: char, rest: string)
    ensures Unquote(Escape(c) + rest) == Then(c, Unquote(rest))
  {
    var s := Escape(c) + rest;
    if c as int < 0x20 || c as int == 0x7f || c as int == RUNE_ERROR {
      if c != '\n' && c != '\t' && c != '\r' {
        var h := HexText(c as int);
        Hex4Back(c, rest);
        assert s == "\\u" + (h + rest) && s[2..] == h + rest && s[6..] == rest;
      } else {
        assert s[2..] == rest;
      }
    } else if c == '"' || c == '\\' {
      assert s[2..] == rest;
    } else {
      assert s[1..] == rest;
    }
  }

  /** What the printer quotes the lexer reads back, whatever follows. */
  lemma {:induction false} QuotedReadsBack(s: string, rest: string)
    ensures Unquote(Escaped(s) + "\"" + rest) == Some((s, rest))
    decreases |s|
  {
    if s == "" {
      assert Escaped(s) + "\"" + rest == "\"" + rest;
      assert ("\"" + rest)[1..] == rest;
    } else {
      QuotedReadsBack(s[1..], rest);
      EscapeBack(s[0], Escaped(s[1..]) + "\"" + rest);
      assert Escaped(s) + "\"" + rest == Escape(s[0]) + (Escaped(s[1..]) + "\"" + rest);
      hide Unquote, Escape;
      assert [s[0]] + s[1..] == s;
    }
  }

  // ---- pieces of a line ------------------------------------------------------------------------

  /** What the printer puts after a condition: nothing, or something no word or number goes on with. */
  predicate Boundary(rest: string)
  {
    rest == "" || rest[0] == ' ' || rest[0] == ')' || rest[0] == ',' || rest[0] == ']'
  }

  /** Before a boundary the text is read as these tokens. */
  ghost predicate Lexes(al: Alphabet, text: string, toks: seq<Token>) {
    forall rest :: Boundary(rest) ==> Lex(al, text + rest) == Ahead(toks, Lex(al, rest))
  }

  /** Before anything it is. */
  ghost predicate LexesAlways(al: Alphabet, text: string, toks: seq<Token>) {
    forall rest :: Lex(al, text + rest) == Ahead(toks, Lex(al, rest))
  }

  lemma AheadTwice(a: seq<Token>, b: seq<Token>, rest: Option<seq<Token>>)
    ensures Ahead(a, Ahead(b, rest)) == Ahead(a + b, rest)
  {
    if rest.Some? { assert a + (b + rest.value) == (a + b) + rest.value; }
  }

  lemma ThenText(al: Alphabet, a: string, ta: seq<Token>, b: string, tb: seq<Token>)
    requires LexesAlways(al, a, ta) && Lexes(al, b, tb)
    ensures Lexes(al, a + b, ta + tb)
  {
    hide Lex, Boundary;
    forall rest | Boundary(rest) ensures Lex(al, a + b + rest) == Ahead(ta + tb, Lex(al, rest)) {
      assert a + b + rest == a + (b + rest);
      AheadTwice(ta, tb, Lex(al, rest));
    }
  }

  lemma ThenAlways(al: Alphabet, a: string, ta: seq<Token>, b: string, tb: seq<Token>)
    requires Lexes(al, a, ta) && LexesAlways(al, b, tb) && b != "" && Boundary(b)
    ensures LexesAlways(al, a + b, ta + tb)
  {
    hide Lex;
    forall rest ensures Lex(al, a + b + rest) == Ahead(ta + tb, Lex(al, rest)) {
      assert a + b + rest == a + (b + rest) && Boundary(b + rest);
      AheadTwice(ta, tb, Lex(al, rest));
    }
  }

  lemma AlwaysThen(al: Alphabet, a: string, ta: seq<Token>, b: string, tb: seq<Token>)
    requires LexesAlways(al, a, ta) && LexesAlways(al, b, tb)
    ensures LexesAlways(al, a + b, ta + tb)
  {
    hide Lex;
    forall rest ensures Lex(al, a + b + rest) == Ahead(ta + tb, Lex(al, rest)) {
      assert a + b + rest == a + (b + rest);
      AheadTwice(ta, tb, Lex(al, rest));
    }
  }

  // ---- words -----------------------------------------------------------------------------------

  lemma {:induction false} NameStops(al: Alphabet, name: string, rest: string)
    requires NameLen(al, name) == |name| && (rest == "" || !NameChar(al, rest[0]))
    ensures NameLen(al, name + rest) == |name|
    decreases |name|
  {
    hide NameChar;
    if name == "" {
      assert name + rest == rest;
    } else {
      NameBound(al, name[1..]);
      NameStops(al, name[1..], rest);
      assert (name + rest)[1..] == name[1..] + rest;
    }
  }

  lemma WordLexes(al: Alphabet, w: string, rest: string)
    requires IsName(al, w) && NameStart(al, w[0]) && (rest == "" || !NameChar(al, rest[0]))
    ensures Lex(al, w + rest) == Ahead([WordToken(w)], Lex(al, rest))
  {
    NameStops(al, w, rest);
    NameBound(al, w + rest);
    var s := w + rest;
    assert s[..|w|] == w && s[|w|..] == rest;
    hide WordToken, NameLen;
  }

  lemma {:induction false} PlainWord(al: Alphabet, w: string)
    requires forall k :: 0 <= k < |w| ==> 'a' <= w[k] <= 'z'
    ensures NameLen(al, w) == |w|
    decreases |w|
  {
    if w != "" { PlainWord(al, w[1..]); }
  }

  lemma BoundaryStops(al: Alphabet, rest: string)
    requires Boundary(rest)
    ensures rest == "" || (!NameChar(al, rest[0]) && !IsDigit(rest[0]) && rest[0] != '.' && !IsAsciiStart(rest[0]))
  {}

  lemma WordIs(al: Alphabet, w: string)
    requires w != "" && forall k :: 0 <= k < |w| ==> 'a' <= w[k] <= 'z'
    ensures Lexes(al, w, [WordToken(w)])
  {
    PlainWord(al, w);
    hide Lex, WordToken;
    forall rest | Boundary(rest) ensures Lex(al, w + rest) == Ahead([WordToken(w)], Lex(al, rest)) {
      BoundaryStops(al, rest);
      WordLexes(al, w, rest);
    }
  }

  lemma SpaceIs(al: Alphabet)
    ensures LexesAlways(al, " ", [])
  {
    forall rest ensures Lex(al, " " + rest) == Ahead([], Lex(al, rest)) {
      assert (" " + rest)[1..] == rest;
      var l := Lex(al, rest);
      assert l.Some? ==> [] + l.value == l.value;
    }
  }

  /** A bracket, a comma or an arithmetic sign: nothing after it changes it. */
  predicate Alone(c: char)
  {
    c == '(' || c == ')' || c == '[' || c == ']' || c == ',' || c == '+' || c == '-' || c == '*' || c == '/'
  }

  lemma AloneIs(al: Alphabet, c: char)
    requires Alone(c)
    ensures Punct([c]).Some? && LexesAlways(al, [c], [Punct([c]).value.0])
  {
    forall rest ensures Lex(al, [c] + rest) == Ahead([Punct([c]).value.0], Lex(al, rest)) {
      assert ([c] + rest)[1..] == rest;
      PunctAlone(c, rest);
      hide Punct;
    }
  }

  lemma PunctAlone(c: char, rest: string)
    requires Alone(c)
    ensures Punct([c]).Some? && Punct([c]).value.1 == 1 && Punct([c] + rest) == Punct([c])
  {}

  lemma PunctOp(op: Op, rest: string)
    requires IsSymbol(op)
    ensures Punct(OpText(op) + " " + rest) == Some((OpTok(op), |OpText(op)|))
  {
    var s := OpText(op) + " " + rest;
    assert |OpText(op)| == 1 ==> s[0] == OpText(op)[0] && s[1] == ' ';
    assert |OpText(op)| == 2 ==> s[..2] == OpText(op);
    assert |OpText(op)| == 1 ==> s[..2] == [s[0], ' '];
  }

  lemma PunctLexes(al: Alphabet, s: string, t: Token, n: nat)
    requires s != "" && Punct(s) == Some((t, n)) && 0 < n <= |s|
    requires s[0] == '=' || s[0] == '!' || s[0] == '<' || s[0] == '>' || Alone(s[0])
    ensures Lex(al, s) == Ahead([t], Lex(al, s[n..]))
  {
    hide Punct;
  }

  lemma SymbolStarts(op: Op)
    requires IsSymbol(op)
    ensures var t := OpText(op);
            1 <= |t| <= 2 && (t[0] == '=' || t[0] == '!' || t[0] == '<' || t[0] == '>' || Alone(t[0]))
  {}

  /** An operator with a space after it. */
  lemma SymbolIs(al: Alphabet, op: Op)
    requires IsSymbol(op)
    ensures LexesAlways(al, OpText(op) + " ", [OpTok(op)])
  {
    SymbolStarts(op);
    forall rest ensures Lex(al, OpText(op) + " " + rest) == Ahead([OpTok(op)], Lex(al, rest)) {
      var s := OpText(op) + " " + rest;
      PunctOp(op, rest);
      PunctLexes(al, s, OpTok(op), |OpText(op)|);
      assert s[|OpText(op)|..] == " " + rest;
      SpaceBefore(al, rest);
      hide Punct, Lex, OpText;
    }
  }

  lemma SpaceBefore(al: Alphabet, rest: string)
    ensures Lex(al, " " + rest) == Lex(al, rest)
  {
    assert (" " + rest)[1..] == rest;
  }

  lemma WordOpIs(al: Alphabet, w: string)
    requires w != "" && forall k :: 0 <= k < |w| ==> 'a' <= w[k] <= 'z'
    ensures LexesAlways(al, w + " ", [WordToken(w)])
  {
    WordIs(al, w);
    SpaceIs(al);
    ThenAlways(al, w, [WordToken(w)], " ", []);
    assert [WordToken(w)] + [] == [WordToken(w)];
  }

  /** An infix operator between its spaces. */
  lemma InfixIs(al: Alphabet, op: Op)
    requires op != Not && op != Neg
    ensures LexesAlways(al, " " + OpText(op) + " ", [OpToken(op)])
  {
    hide LexesAlways;
    SpaceIs(al);
    if op == Or || op == And { WordOpIs(al, OpText(op)); } else { SymbolIs(al, op); }
    AlwaysThen(al, " ", [], OpText(op) + " ", [OpToken(op)]);
    assert [] + [OpToken(op)] == [OpToken(op)];
    assert " " + (OpText(op) + " ") == " " + OpText(op) + " ";
  }

  lemma QuoteIs(al: Alphabet, s: string)
    ensures LexesAlways(al, Quote(s), [StringTok(s)])
  {
    forall rest ensures Lex(al, Quote(s) + rest) == Ahead([StringTok(s)], Lex(al, rest)) {
      assert (Quote(s) + rest)[0] == '"';
      assert (Quote(s) + rest)[1..] == Escaped(s) + "\"" + rest;
      QuotedReadsBack(s, rest);
      hide Escaped, Unquote;
    }
  }

  lemma AttrParts(name: string, rest: string)
    ensures var s := ":" + name + ":" + rest;
            && s[0] == ':' && s[1..] == name + (":" + rest) && s[|name| + 1] == ':' && s[|name| + 2..] == rest
            && (name + (":" + rest))[..|name|] == name
  {}

  lemma AttrIs(al: Alphabet, name: string)
    requires IsName(al, name)
    ensures LexesAlways(al, ":" + name + ":", [AttrTok(name)])
  {
    forall rest ensures Lex(al, ":" + name + ":" + rest) == Ahead([AttrTok(name)], Lex(al, rest)) {
      var s := ":" + name + ":" + rest;
      AttrParts(name, rest);
      NameStops(al, name, ":" + rest);
      assert Lex(al, s) == LexAttr(al, s);
      hide NameLen, Lex;
    }
  }

  lemma ListIs(al: Alphabet, name: string)
    requires IsName(al, name)
    ensures Lexes(al, "@" + name, [ListTok(name)])
  {
    forall rest | Boundary(rest) ensures Lex(al, "@" + name + rest) == Ahead([ListTok(name)], Lex(al, rest)) {
      var s := "@" + name + rest;
      assert s[1..] == name + rest && s[0] == '@';
      BoundaryStops(al, rest);
      NameStops(al, name, rest);
      assert (name + rest)[..|name|] == name && (name + rest)[|name|..] == rest;
      hide NameLen;
    }
  }

  lemma CallIs(al: Alphabet, name: string)
    requires IsWord(al, name)
    ensures LexesAlways(al, name + "(", [Ident(name), LParen])
  {
    AloneIs(al, '(');
    hide Lex, WordToken;
    forall rest ensures Lex(al, name + "(" + rest) == Ahead([Ident(name), LParen], Lex(al, rest)) {
      assert name + "(" + rest == name + ("(" + rest);
      WordLexes(al, name, "(" + rest);
      AheadTwice([Ident(name)], [LParen], Lex(al, rest));
      assert [Ident(name)] + [LParen] == [Ident(name), LParen];
    }
  }

  lemma {:induction false} DigitsStop(t: string, rest: string)
    ensures DigitsLen(t) < |t| ==> DigitsLen(t + rest) == DigitsLen(t)
    ensures DigitsLen(t) == |t| ==> DigitsLen(t + rest) == |t| + DigitsLen(rest)
    decreases |t|
  {
    if t == "" {
      assert t + rest == rest;
    } else {
      DigitsBound(t[1..]);
      DigitsStop(t[1..], rest);
      assert (t + rest)[1..] == t[1..] + rest;
    }
  }

  lemma NumberStops(t: string, rest: string)
    requires t != "" && NumberLen(t) == |t| && (rest == "" || (!IsDigit(rest[0]) && rest[0] != '.'))
    ensures NumberLen(t + rest) == |t|
  {
    DigitsBound(t);
    DigitsStop(t, rest);
    var n := DigitsLen(t);
    if n + 1 < |t| {
      DigitsBound(t[n + 1..]);
      DigitsStop(t[n + 1..], rest);
      assert (t + rest)[n + 1..] == t[n + 1..] + rest;
    }
  }

  lemma NumberIs(al: Alphabet, v: real)
    requires IsNumber(al, v)
    ensures Lexes(al, al.decimal(v), [NumberTok(v)])
  {
    var t := al.decimal(v);
    hide NumberLen;
    forall rest | Boundary(rest) ensures Lex(al, t + rest) == Ahead([NumberTok(v)], Lex(al, rest)) {
      BoundaryStops(al, rest);
      NumberStops(t, rest);
      assert (t + rest)[..|t|] == t && (t + rest)[|t|..] == rest && (t + rest)[0] == t[0];
    }
  }

  // ---- whole conditions ------------------------------------------------------------------------

  lemma Anyway(al: Alphabet, text: string, toks: seq<Token>)
    requires LexesAlways(al, text, toks)
    ensures Lexes(al, text, toks)
  {}

  lemma {:induction false} OperandLexes(al: Alphabet, e: Expr, bare: nat)
    requires Spelled(al, e) && (Plain(e) || IsList(e) || IsItem(e))
    ensures Lexes(al, OperandText(al, e, bare), Operand(e, bare))
    decreases e, 2
  {
    hide Lexes, LexesAlways, Text, Print;
    TextLexes(al, e);
    if ExprPrec(e) < bare {
      AloneIs(al, '(');
      AloneIs(al, ')');
      ThenText(al, "(", [LParen], Text(al, e), Print(e));
      ThenAlways(al, "(" + Text(al, e), [LParen] + Print(e), ")", [RParen]);
      Anyway(al, "(" + Text(al, e) + ")", [LParen] + Print(e) + [RParen]);
    }
  }

  /** The printed text is read back as the printed tokens. */
  lemma {:induction false} TextLexes(al: Alphabet, e: Expr)
    requires Spelled(al, e) && (Plain(e) || IsList(e) || IsItem(e))
    ensures Lexes(al, Text(al, e), Print(e))
    decreases e, 1
  {
    hide Lexes, LexesAlways;
    match e
    case Attr(name) =>
      AttrIs(al, name);
      Anyway(al, Text(al, e), Print(e));
    case NumberLit(v) => NumberIs(al, v);
    case StringLit(t) =>
      QuoteIs(al, t);
      Anyway(al, Quote(t), [StringTok(t)]);
    case BoolLit(b) => if b { WordIs(al, "true"); } else { WordIs(al, "false"); }
    case Unary(_, _) => UnaryLexes(al, e);
    case Binary(_, _, _) => BinaryLexes(al, e);
    case In(_, _) => InLexes(al, e);
    case Call(_, _) => CallLexes(al, e);
    case ListRef(name) => ListIs(al, name);
    case ListLit(_) => ListLitLexes(al, e);
  }

  lemma {:induction false} UnaryLexes(al: Alphabet, e: Expr)
    requires e.Unary? && Spelled(al, e) && (Plain(e) || IsItem(e))
    ensures Lexes(al, Text(al, e), Print(e))
    decreases e, 0
  {
    hide Lexes, LexesAlways, OperandText, Operand;
    OperandLexes(al, e.x, Prec(e.op));
    if e.op == Not {
      WordOpIs(al, "not");
      assert "not" + " " == "not ";
      ThenText(al, "not ", [NotTok], OperandText(al, e.x, NOT), Operand(e.x, NOT));
    } else {
      AloneIs(al, '-');
      ThenText(al, "-", [OpTok(Sub)], OperandText(al, e.x, UNARY), Operand(e.x, UNARY));
    }
  }

  lemma {:induction false} BinaryLexes(al: Alphabet, e: Expr)
    requires e.Binary? && Spelled(al, e) && Plain(e)
    ensures Lexes(al, Text(al, e), Print(e))
    decreases e, 0
  {
    hide Lexes, LexesAlways, OperandText, Operand, OpText;
    var a, b := OperandText(al, e.x, LeftMin(e.op)), OperandText(al, e.y, Prec(e.op) + 1);
    var mid := " " + OpText(e.op) + " ";
    OperandLexes(al, e.x, LeftMin(e.op));
    OperandLexes(al, e.y, Prec(e.op) + 1);
    InfixIs(al, e.op);
    ThenAlways(al, a, Operand(e.x, LeftMin(e.op)), mid, [OpToken(e.op)]);
    ThenText(al, a + mid, Operand(e.x, LeftMin(e.op)) + [OpToken(e.op)], b, Operand(e.y, Prec(e.op) + 1));
    assert Text(al, e) == a + mid + b;
    BinaryPrints(e);
  }

  lemma {:induction false} InLexes(al: Alphabet, e: Expr)
    requires e.In? && Spelled(al, e) && Plain(e)
    ensures Lexes(al, Text(al, e), Print(e))
    decreases e, 0
  {
    hide Lexes, LexesAlways, OperandText, Operand;
    var a, b := OperandText(al, e.x, COMPARE + 1), Text(al, e.list);
    OperandLexes(al, e.x, COMPARE + 1);
    TextLexes(al, e.list);
    SpaceIs(al);
    WordOpIs(al, "in");
    AlwaysThen(al, " ", [], "in" + " ", [InTok]);
    assert " " + ("in" + " ") == " in " && [] + [InTok] == [InTok];
    ThenAlways(al, a, Operand(e.x, COMPARE + 1), " in ", [InTok]);
    ThenText(al, a + " in ", Operand(e.x, COMPARE + 1) + [InTok], b, Print(e.list));
    InPrints(e);
  }

  lemma {:induction false} SeveralLexes(al: Alphabet, es: seq<Expr>, end: char, t: Token)
    requires forall k :: 0 <= k < |es| ==> Spelled(al, es[k]) && (Plain(es[k]) || IsItem(es[k]))
    requires Alone(end) && Boundary([end]) && Punct([end]).Some? && Punct([end]).value.0 == t
    ensures LexesAlways(al, SeveralText(al, es) + [end], Several(es) + [t])
    decreases es, 3
  {
    hide Lexes, LexesAlways, Text, Print, Punct, Spelled, Plain, IsItem;
    AloneIs(al, end);
    if es == [] {
      assert SeveralText(al, es) + [end] == [end] && Several(es) + [t] == [t];
    } else if |es| == 1 {
      TextLexes(al, es[0]);
      ThenAlways(al, Text(al, es[0]), Print(es[0]), [end], [t]);
    } else {
      TextLexes(al, es[0]);
      CommaIs(al);
      ThenAlways(al, Text(al, es[0]), Print(es[0]), ", ", [Comma]);
      SeveralLexes(al, es[1..], end, t);
      AlwaysThen(al, Text(al, es[0]) + ", ", Print(es[0]) + [Comma], SeveralText(al, es[1..]) + [end],
        Several(es[1..]) + [t]);
      assert SeveralText(al, es) + [end] == Text(al, es[0]) + ", " + (SeveralText(al, es[1..]) + [end]);
      assert Several(es) + [t] == Print(es[0]) + [Comma] + (Several(es[1..]) + [t]);
    }
  }

  lemma CommaIs(al: Alphabet)
    ensures LexesAlways(al, ", ", [Comma])
  {
    hide Lex;
    AloneIs(al, ',');
    SpaceIs(al);
    AlwaysThen(al, ",", [Comma], " ", []);
    assert "," + " " == ", " && [Comma] + [] == [Comma];
  }

  lemma {:induction false} CallLexes(al: Alphabet, e: Expr)
    requires e.Call? && Spelled(al, e) && Plain(e)
    ensures Lexes(al, Text(al, e), Print(e))
    decreases e, 0
  {
    hide Lexes, LexesAlways, SeveralText, Several;
    CallIs(al, e.name);
    SeveralLexes(al, e.args, ')', RParen);
    AlwaysThen(al, e.name + "(", [Ident(e.name), LParen], SeveralText(al, e.args) + ")", Several(e.args) + [RParen]);
    assert Text(al, e) == e.name + "(" + (SeveralText(al, e.args) + ")");
    assert Print(e) == [Ident(e.name), LParen] + (Several(e.args) + [RParen]);
    Anyway(al, Text(al, e), Print(e));
  }

  lemma {:induction false} ListLitLexes(al: Alphabet, e: Expr)
    requires e.ListLit? && Spelled(al, e) && IsList(e)
    ensures Lexes(al, Text(al, e), Print(e))
    decreases e, 0
  {
    hide Lexes, LexesAlways, SeveralText, Several, IsItem;
    AloneIs(al, '[');
    SeveralLexes(al, e.items, ']', RBrack);
    AlwaysThen(al, "[", [LBrack], SeveralText(al, e.items) + "]", Several(e.items) + [RBrack]);
    assert Text(al, e) == "[" + (SeveralText(al, e.items) + "]");
    assert Print(e) == [LBrack] + (Several(e.items) + [RBrack]);
    Anyway(al, Text(al, e), Print(e));
  }

  // ---- there and back --------------------------------------------------------------------------

  predicate OneLine(s: string) { '\n' !in s }

  lemma OneLineBoth(a: string, b: string)
    requires OneLine(a) && OneLine(b)
    ensures OneLine(a + b)
  {}

  lemma {:induction false} NameOnOneLine(al: Alphabet, name: string)
    requires NameLen(al, name) == |name|
    ensures OneLine(name)
    decreases |name|
  {
    if name != "" {
      NameBound(al, name[1..]);
      NameOnOneLine(al, name[1..]);
      assert name == [name[0]] + name[1..];
    }
  }

  lemma {:induction false} DigitsOnOneLine(t: string)
    requires DigitsLen(t) == |t|
    ensures OneLine(t)
    decreases |t|
  {
    if t != "" {
      DigitsBound(t[1..]);
      DigitsOnOneLine(t[1..]);
      assert t == [t[0]] + t[1..];
    }
  }

  lemma {:induction false} DigitsPrefix(t: string)
    ensures DigitsLen(t) <= |t| && DigitsLen(t[..DigitsLen(t)]) == DigitsLen(t)
    decreases |t|
  {
    DigitsBound(t);
    if t != "" && IsDigit(t[0]) {
      DigitsPrefix(t[1..]);
      assert t[..DigitsLen(t)][1..] == t[1..][..DigitsLen(t[1..])];
    }
  }

  lemma NumberOnOneLine(t: string)
    requires NumberLen(t) == |t|
    ensures OneLine(t)
  {
    DigitsPrefix(t);
    var n := DigitsLen(t);
    DigitsOnOneLine(t[..n]);
    if n + 1 < |t| {
      DigitsBound(t[n + 1..]);
      DigitsOnOneLine(t[n + 1..]);
      assert t == t[..n] + [t[n]] + t[n + 1..];
    } else {
      assert t == t[..n];
    }
  }

  lemma {:induction false} EscapedOnOneLine(s: string)
    ensures OneLine(Escaped(s))
    decreases |s|
  {
    if s != "" {
      EscapedOnOneLine(s[1..]);
      EscapeOnOneLine(s[0]);
      OneLineBoth(Escape(s[0]), Escaped(s[1..]));
    }
  }

  lemma EscapeOnOneLine(c: char)
    ensures OneLine(Escape(c))
  {
    if c as int < 0x10000 {
      DigitsOf(c as int);
      assert OneLine(HexText(c as int));
    }
  }

  lemma {:induction false} TextOnOneLine(al: Alphabet, e: Expr)
    requires Spelled(al, e) && (Plain(e) || IsList(e) || IsItem(e))
    ensures OneLine(Text(al, e))
    decreases e, 0
  {
    hide IsNumber;
    match e
    case Attr(name) => NameOnOneLine(al, name);
    case NumberLit(v) => DecimalOnOneLine(al, v);
    case StringLit(s) => EscapedOnOneLine(s);
    case BoolLit(_) =>
    case Unary(_, x) => TextOnOneLine(al, x);
    case Binary(op, x, y) =>
      TextOnOneLine(al, x);
      TextOnOneLine(al, y);
      OpOnOneLine(op);
      hide OpText, Text;
      BinaryText(al, e);
    case In(x, list) =>
      TextOnOneLine(al, x);
      TextOnOneLine(al, list);
    case Call(name, args) =>
      NameOnOneLine(al, name);
      SeveralOnOneLine(al, args);
    case ListRef(name) => NameOnOneLine(al, name);
    case ListLit(items) => SeveralOnOneLine(al, items);
  }

  lemma OpOnOneLine(op: Op)
    ensures OneLine(OpText(op))
  {}

  lemma BinaryText(al: Alphabet, e: Expr)
    requires e.Binary? && OneLine(Text(al, e.x)) && OneLine(Text(al, e.y)) && OneLine(OpText(e.op))
    ensures OneLine(Text(al, e))
  {
    hide OpText;
    assert OneLine(OperandText(al, e.x, LeftMin(e.op))) && OneLine(OperandText(al, e.y, Prec(e.op) + 1));
  }

  lemma DecimalOnOneLine(al: Alphabet, v: real)
    requires IsNumber(al, v)
    ensures OneLine(al.decimal(v))
  {
    NumberOnOneLine(al.decimal(v));
  }

  lemma {:induction false} SeveralOnOneLine(al: Alphabet, es: seq<Expr>)
    requires forall k :: 0 <= k < |es| ==> Spelled(al, es[k]) && (Plain(es[k]) || IsItem(es[k]))
    ensures OneLine(SeveralText(al, es))
    decreases es, 1
  {
    hide Text, Spelled, Plain, IsItem;
    if es != [] {
      TextOnOneLine(al, es[0]);
      if |es| > 1 {
        SeveralOnOneLine(al, es[1..]);
        OneLineBoth(Text(al, es[0]) + ", ", SeveralText(al, es[1..]));
      }
    }
  }

  /** A number that was read is written so that it reads back, and has no sign. */
  ghost predicate Faithful(al: Alphabet) {
    forall t :: al.value(t).Some? ==> al.value(t).value >= 0.0 && IsNumber(al, al.value(t).value)
  }

  /** Printing a condition and parsing the text gives it back. */
  lemma TextReadsBack(al: Alphabet, e: Expr)
    requires Plain(e) && Spelled(al, e)
    ensures ParseText(al, Text(al, e)) == Some(e)
  {
    TextLexes(al, e);
    TextOnOneLine(al, e);
    PrintedParses(e);
    var text := Text(al, e);
    assert Boundary("") && text + "" == text;
    assert Lex(al, text + "") == Ahead(Print(e), Lex(al, ""));
    assert Print(e) + [] == Print(e);
    hide Lex, Parse, Print, Text;
  }

  lemma {:induction false} NamePrefix(al: Alphabet, s: string)
    ensures NameLen(al, s) <= |s| && NameLen(al, s[..NameLen(al, s)]) == NameLen(al, s)
    decreases |s|
  {
    hide NameChar;
    NameBound(al, s);
    if s != "" && NameChar(al, s[0]) {
      NamePrefix(al, s[1..]);
      assert s[..NameLen(al, s)][1..] == s[1..][..NameLen(al, s[1..])];
    }
  }

  /** Tokens a line can hold and a printed tree be made of. */
  ghost predicate AllRead(al: Alphabet, toks: seq<Token>) { IsLine(toks) && AllOf(toks, t => Readable(al, t)) }

  lemma OneRead(al: Alphabet, t: Token, rest: Option<seq<Token>>)
    requires Readable(al, t) && !t.EndOfLine? && (t.OpTok? ==> IsSymbol(t.op)) && (t.NumberTok? ==> t.num >= 0.0)
    requires rest.Some? ==> AllRead(al, rest.value)
    ensures Ahead([t], rest).Some? ==> AllRead(al, Ahead([t], rest).value)
  {
    hide Readable, IsSymbol;
  }

  lemma WordRead(al: Alphabet, s: string)
    requires s != "" && NameStart(al, s[0])
    ensures NameLen(al, s) <= |s| && Readable(al, WordToken(s[..NameLen(al, s)]))
  {
    NamePrefix(al, s);
    var w := s[..NameLen(al, s)];
    assert w != "" && w[0] == s[0];
    var t := WordToken(w);
    assert t.Ident? ==> t.text == w;
    hide NameLen;
  }

  lemma PunctRead(s: string)
    requires s != "" && Punct(s).Some?
    ensures var t := Punct(s).value.0;
            && !t.EndOfLine? && !t.NumberTok? && !t.Ident? && !t.AttrTok? && !t.ListTok?
            && (t.OpTok? ==> IsSymbol(t.op))
  {}

  /** What the lexer reads are such tokens. */
  lemma {:induction false} LexedIsRead(al: Alphabet, s: string)
    requires Faithful(al)
    ensures Lex(al, s).Some? ==> AllRead(al, Lex(al, s).value)
    decreases |s|
  {
    hide Punct, Unquote, AllRead, WordToken, Readable, Faithful;
    if s == "" || s[0] == '#' {
      assert AllRead(al, []) by { NothingRead(al); }
    } else if s[0] == ' ' || s[0] == '\t' || s[0] == '\r' {
      LexedIsRead(al, s[1..]);
    } else if NameStart(al, s[0]) {
      WordRead(al, s);
      var n := NameLen(al, s);
      if n > 0 {
        LexedIsRead(al, s[n..]);
        WordTokenIs(s[..n]);
        OneRead(al, WordToken(s[..n]), Lex(al, s[n..]));
      }
    } else if IsDigit(s[0]) {
      NumberRead(al, s);
    } else if s[0] == '"' {
      var r := Unquote(s[1..]);
      if r.Some? {
        LexedIsRead(al, r.value.1);
        StringRead(al, r.value.0);
        OneRead(al, StringTok(r.value.0), Lex(al, r.value.1));
      }
    } else if s[0] == ':' || s[0] == '@' {
      NameTokenRead(al, s);
    } else {
      var r := Punct(s);
      if r.Some? && 0 < r.value.1 <= |s| {
        LexedIsRead(al, s[r.value.1..]);
        PunctRead(s);
        SymbolRead(al, r.value.0);
        OneRead(al, r.value.0, Lex(al, s[r.value.1..]));
      }
    }
  }

  lemma NothingRead(al: Alphabet)
    ensures AllRead(al, [])
  {}

  lemma WordTokenIs(w: string)
    ensures !WordToken(w).EndOfLine? && !WordToken(w).OpTok? && !WordToken(w).NumberTok?
  {}

  lemma StringRead(al: Alphabet, s: string)
    ensures Readable(al, StringTok(s))
  {}

  lemma SymbolRead(al: Alphabet, t: Token)
    requires !t.NumberTok? && !t.Ident? && !t.AttrTok? && !t.ListTok?
    ensures Readable(al, t)
  {}

  lemma NumberTokRead(al: Alphabet, t: string)
    requires Faithful(al) && al.value(t).Some?
    ensures al.value(t).value >= 0.0 && Readable(al, NumberTok(al.value(t).value))
  {
    hide IsNumber;
  }

  lemma {:induction false} NumberRead(al: Alphabet, s: string)
    requires Faithful(al) && s != ""
    ensures LexNumber(al, s).Some? ==> AllRead(al, LexNumber(al, s).value)
    decreases |s|, 0
  {
    hide AllRead, Readable, Faithful, NumberLen;
    var n := NumberLen(s);
    if n > 0 && al.value(s[..n]).Some? {
      LexedIsRead(al, s[n..]);
      NumberTokRead(al, s[..n]);
      OneRead(al, NumberTok(al.value(s[..n]).value), Lex(al, s[n..]));
    }
  }

  lemma {:induction false} NameTokenRead(al: Alphabet, s: string)
    requires Faithful(al) && s != ""
    ensures LexAttr(al, s).Some? ==> AllRead(al, LexAttr(al, s).value)
    ensures LexList(al, s).Some? ==> AllRead(al, LexList(al, s).value)
    decreases |s|, 0
  {
    hide AllRead, Faithful;
    NamePrefix(al, s[1..]);
    var n := NameLen(al, s[1..]);
    var name := s[1..][..n];
    if n > 0 {
      assert Readable(al, AttrTok(name)) && Readable(al, ListTok(name));
      hide Readable, NameLen;
      LexedIsRead(al, s[1..][n..]);
      OneRead(al, ListTok(name), Lex(al, s[1..][n..]));
      if n + 2 <= |s| {
        LexedIsRead(al, s[n + 2..]);
        OneRead(al, AttrTok(name), Lex(al, s[n + 2..]));
      }
    }
  }

  /** Whatever text is parsed, its condition's canonical text parses to the same condition. */
  lemma CanonicalTextIsSame(al: Alphabet, s: string)
    requires Faithful(al) && ParseText(al, s).Some?
    ensures ParseText(al, Text(al, ParseText(al, s).value)) == ParseText(al, s)
  {
    hide Faithful, Text, Parse, Readable;
    LexedIsRead(al, s);
    ParsedIsMade(Lex(al, s).value, t => Readable(al, t));
    TextReadsBack(al, ParseText(al, s).value);
  }

  // ---- the words and signs -------------------------------------------------------------------------------

  /** How each infix operator is written. */
  predicate IsWritten(op: Op, sign: string) {
    || (op == Or && sign == "or") || (op == And && sign == "and")
    || (op == Eq && sign == "=") || (op == Ne && sign == "!=")
    || (op == Lt && sign == "<") || (op == Le && sign == "<=")
    || (op == Gt && sign == ">") || (op == Ge && sign == ">=")
    || (op == Add && sign == "+") || (op == Sub && sign == "-")
    || (op == Mul && sign == "*") || (op == Div && sign == "/")
  }

  /** An attribute as an operand, and conditions of one or two of them. */
  lemma AttributesText(al: Alphabet, a: string, b: string, op: Op)
    requires IsName(al, a) && IsName(al, b) && op != Not && op != Neg
    ensures Spelled(al, Attr(a)) && Text(al, Attr(a)) == ":" + a + ":"
    ensures Spelled(al, Binary(op, Attr(a), Attr(b))) && Plain(Binary(op, Attr(a), Attr(b)))
    ensures Text(al, Binary(op, Attr(a), Attr(b))) == (":" + a + ":") + " " + OpText(op) + " " + (":" + b + ":")
  {
    var x, y := Attr(a), Attr(b);
    assert MadeOf(x, t => Readable(al, t)) && MadeOf(y, t => Readable(al, t));
    assert Plain(x) && Plain(y);
    AttributeBare(al, a, LeftMin(op));
    AttributeBare(al, b, Prec(op) + 1);
  }

  lemma AttributeBare(al: Alphabet, a: string, bare: nat)
    requires bare <= ATOM
    ensures OperandText(al, Attr(a), bare) == ":" + a + ":"
  {}

  lemma PrefixText(al: Alphabet, a: string, op: Op)
    requires IsName(al, a) && (op == Not || op == Neg)
    ensures Spelled(al, Unary(op, Attr(a))) && Plain(Unary(op, Attr(a)))
    ensures Text(al, Unary(op, Attr(a))) == (if op == Not then "not " else "-") + (":" + a + ":")
  {
    assert MadeOf(Attr(a), t => Readable(al, t)) && Plain(Attr(a));
    AttributeBare(al, a, Prec(op));
  }

  lemma TestText(al: Alphabet, a: string, b: string)
    requires IsName(al, a) && IsName(al, b)
    ensures Spelled(al, In(Attr(a), ListRef(b))) && Plain(In(Attr(a), ListRef(b)))
    ensures Text(al, In(Attr(a), ListRef(b))) == (":" + a + ":") + " in " + ("@" + b)
  {
    assert MadeOf(Attr(a), t => Readable(al, t)) && Plain(Attr(a));
    assert MadeOf(ListRef(b), t => Readable(al, t));
    AttributeBare(al, a, COMPARE + 1);
  }

  lemma Spaced(a: string, sign: string, b: string)
    ensures (":" + a + ":") + " " + sign + " " + (":" + b + ":") == ":" + a + ": " + sign + " :" + b + ":"
    ensures (":" + a + ":") + " in " + ("@" + b) == ":" + a + ": in @" + b
    ensures "not " + (":" + a + ":") == "not :" + a + ":" && "-" + (":" + a + ":") == "-:" + a + ":"
  {}

  /** Between two attributes each sign is read as its operator. */
  lemma SignsMean(al: Alphabet, a: string, b: string, op: Op, sign: string)
    requires IsName(al, a) && IsName(al, b) && IsWritten(op, sign)
    ensures ParseText(al, ":" + a + ": " + sign + " :" + b + ":") == Some(Binary(op, Attr(a), Attr(b)))
  {
    hide ParseText, IsName, Spelled, Plain;
    AttributesText(al, a, b, op);
    TextReadsBack(al, Binary(op, Attr(a), Attr(b)));
    hide Text;
    Spaced(a, sign, b);
  }

  /** So are the prefixes, a membership test and the constants. */
  lemma WordsMean(al: Alphabet, a: string, b: string)
    requires IsName(al, a) && IsName(al, b)
    ensures ParseText(al, "not :" + a + ":") == Some(Unary(Not, Attr(a)))
    ensures ParseText(al, "-:" + a + ":") == Some(Unary(Neg, Attr(a)))
    ensures ParseText(al, ":" + a + ": in @" + b) == Some(In(Attr(a), ListRef(b)))
    ensures ParseText(al, "true") == Some(BoolLit(true)) && ParseText(al, "false") == Some(BoolLit(false))
  {
    hide *;
    PrefixText(al, a, Not);
    PrefixText(al, a, Neg);
    TestText(al, a, b);
    TextReadsBack(al, Unary(Not, Attr(a)));
    TextReadsBack(al, Unary(Neg, Attr(a)));
    TextReadsBack(al, In(Attr(a), ListRef(b)));
    ConstantsRead(al);
    Spaced(a, "", b);
  }

  lemma QuotedText(al: Alphabet, c: char)
    ensures ParseText(al, "\"" + (Escape(c) + "\"")) == Some(StringLit([c]))
  {
    hide ParseText, Escape;
    TextReadsBack(al, StringLit([c]));
    assert Escaped([c]) == Escape(c) + Escaped("") by { assert [c][1..] == ""; }
    assert Quote([c]) == "\"" + (Escape(c) + "\"");
  }

  /** Text between quotes is itself, but for what a backslash begins: a quote, a backslash, a line end, a tab or a
  return. */
  lemma EscapesMean(al: Alphabet, c: char)
    requires c != '"' && c != '\\' && 0x20 <= c as int < 0x7f
    ensures ParseText(al, "\"" + ([c] + "\"")) == Some(StringLit([c]))
    ensures ParseText(al, "\"" + ("\\\"" + "\"")) == Some(StringLit("\""))
    ensures ParseText(al, "\"" + ("\\\\" + "\"")) == Some(StringLit("\\"))
    ensures ParseText(al, "\"" + ("\\n" + "\"")) == Some(StringLit("\n"))
    ensures ParseText(al, "\"" + ("\\t" + "\"")) == Some(StringLit("\t"))
    ensures ParseText(al, "\"" + ("\\r" + "\"")) == Some(StringLit("\r"))
  {
    hide ParseText;
    QuotedText(al, c);
    QuotedText(al, '"');
    QuotedText(al, '\\');
    QuotedText(al, '\n');
    QuotedText(al, '\t');
    QuotedText(al, '\r');
  }

  lemma ConstantsRead(al: Alphabet)
    ensures ParseText(al, "true") == Some(BoolLit(true)) && ParseText(al, "false") == Some(BoolLit(false))
  {
    hide ParseText;
    TextReadsBack(al, BoolLit(true));
    TextReadsBack(al, BoolLit(false));
  }
}
