/** Lowering text without building the lowered string (internal/rules/lower.go). A character of a
string stands for one byte, as in Go. */
module Text {

  const RUNE_SELF := 128

  /** UTF-8 and unicode.ToLower: decode gives the first rune and its width (U+FFFD and 1 where the
  bytes are not valid), encode a rune's bytes. */
  datatype Unicode = Unicode(decode: string -> (int, int), encode: int -> string, lower: int -> int)

  function LowerByte(c: char): char {
    if 'A' <= c <= 'Z' then (c as int + 32) as char else c
  }

  function Width(u: Unicode, s: string): nat {
    var w := u.decode(s).1;
    if w < 1 then 1 else if w > |s| then |s| else w
  }

  /** strings.ToLower. */
  function ToLower(u: Unicode, s: string): string
    decreases |s|
  {
    if s == "" then ""
    else if s[0] as int < RUNE_SELF then [LowerByte(s[0])] + ToLower(u, s[1..])
    else
      var w := Width(u, s);
      if w < 1 then "" else u.encode(u.lower(u.decode(s).0)) + ToLower(u, s[w..])
  }

  /** The facts about UTF-8 and unicode.ToLower the compiler relies on, for the runes decoding yields:
  lowering a rune twice is lowering it once, an encoded rune is never empty and decodes to itself
  whatever follows, and an encoding that starts with an ASCII byte is that byte and already lowered. */
  ghost predicate Sane(u: Unicode) {
    && (forall s: string :: s != "" && s[0] as int >= RUNE_SELF ==> 1 <= u.decode(s).1 <= |s|)
    && (forall s: string :: s != "" && s[0] as int >= RUNE_SELF ==> SaneRune(u, u.decode(s).0))
  }

  ghost predicate SaneRune(u: Unicode, r: int) {
    var l := u.lower(r);
    var e := u.encode(l);
    && u.lower(l) == l && e != ""
    && if e[0] as int < RUNE_SELF then |e| == 1 && LowerByte(e[0]) == e[0]
       else forall t: string :: u.decode(e + t) == (l, |e|)
  }

  lemma {:induction false} ToLowerOfRune(u: Unicode, r: int, t: string)
    requires SaneRune(u, r)
    ensures ToLower(u, u.encode(u.lower(r)) + t) == u.encode(u.lower(r)) + ToLower(u, t)
  {
    var l := u.lower(r);
    var e := u.encode(l);
    if e[0] as int < RUNE_SELF {
      assert (e + t)[1..] == t;
    } else {
      assert u.decode(e + t) == (l, |e|);
      assert (e + t)[|e|..] == t;
    }
  }

  /** Lowering twice is lowering once, and never empties or fills a string. */
  lemma {:induction false} ToLowerIdempotent(u: Unicode, s: string)
    requires Sane(u)
    ensures ToLower(u, ToLower(u, s)) == ToLower(u, s)
    ensures ToLower(u, s) == "" <==> s == ""
    decreases |s|
  {
    if s == "" {
    } else if s[0] as int < RUNE_SELF {
      ToLowerIdempotent(u, s[1..]);
      var rest := ToLower(u, s[1..]);
      assert ([LowerByte(s[0])] + rest)[1..] == rest;
    } else {
      var w := Width(u, s);
      ToLowerIdempotent(u, s[w..]);
      assert SaneRune(u, u.decode(s).0);
      ToLowerOfRune(u, u.decode(s).0, ToLower(u, s[w..]));
    }
  }

  /** In plain ASCII text a capital becomes the small letter in its place of the alphabet; nothing else changes. */
  lemma {:induction false} LowersCapitals(u: Unicode, s: string)
    requires forall i :: 0 <= i < |s| ==> s[i] as int < 128
    ensures |ToLower(u, s)| == |s|
    ensures forall i :: 0 <= i < |s| ==>
              if 'A' <= s[i] <= 'Z' then ToLower(u, s)[i] as int - 'a' as int == s[i] as int - 'A' as int
              else ToLower(u, s)[i] == s[i]
    decreases |s|
  {
    if s != "" { LowersCapitals(u, s[1..]); }
  }

  /** A string as it is compared. */
  function View(u: Unicode, s: string, lower: bool): string { if lower then ToLower(u, s) else s }

  /** A cursor over the text as it is viewed: raw, or lowered as it goes. */
  class ByteIter {
    const u: Unicode
    const s: string
    const lower: bool
    var i: nat
    var pending: string // the rest of a lowered rune

    /** What is still to come. */
    function Rest(): string
      requires i <= |s|
      reads this
    {
      pending + View(u, s[i..], lower)
    }

    constructor (u: Unicode, s: string, lower: bool)
      ensures i <= |this.s| && Rest() == View(u, s, lower) && this.u == u
    {
      this.u, this.s, this.lower, i, pending := u, s, lower, 0, "";
      new;
      assert s[0..] == s;
    }

    method Next() returns (c: char, ok: bool)
      requires i <= |s| && Sane(u)
      modifies this
      ensures i <= |s| && ok == (old(Rest()) != "")
      ensures if ok then old(Rest()) == [c] + Rest() else c == '\0'
    {
      hide Sane, ToLower;
      if pending != "" {
        c, pending := pending[0], pending[1..];
        return c, true;
      }
      if i >= |s| {
        NothingLeft(u, s, lower);
        return '\0', false;
      }
      c := s[i];
      Unfold(u, s, i, lower);
      if !lower {
        i := i + 1;
        return c, true;
      }
      if c as int < RUNE_SELF {
        i := i + 1;
        return LowerByte(c), true;
      }
      var d := u.decode(s[i..]);
      var e := u.encode(u.lower(d.0));
      i, pending := i + d.1, e[1..];
      return e[0], true;
    }
  }

  lemma NothingLeft(u: Unicode, s: string, lower: bool)
    ensures View(u, s[|s|..], lower) == ""
  {}

  /** The next byte of a view, and what is left after it. */
  lemma Unfold(u: Unicode, s: string, i: nat, lower: bool)
    requires i < |s| && Sane(u)
    ensures !lower ==> View(u, s[i..], lower) == [s[i]] + View(u, s[i + 1..], lower)
    ensures lower && s[i] as int < RUNE_SELF ==>
              View(u, s[i..], lower) == [LowerByte(s[i])] + View(u, s[i + 1..], lower)
    ensures lower && s[i] as int >= RUNE_SELF ==>
              var d := u.decode(s[i..]);
              var e := u.encode(u.lower(d.0));
              && e != "" && 1 <= d.1 && i + d.1 <= |s|
              && View(u, s[i..], lower) == [e[0]] + (e[1..] + View(u, s[i + d.1..], lower))
  {
    hide Sane, ToLower;
    var t := s[i..];
    assert t[1..] == s[i + 1..];
    if !lower {
      assert t == [s[i]] + t[1..];
    } else if s[i] as int < RUNE_SELF {
      LowerAscii(u, t);
    } else {
      LowerRune(u, t);
      assert t[u.decode(t).1..] == s[i + u.decode(t).1..];
    }
  }

  lemma LowerAscii(u: Unicode, t: string)
    requires t != "" && t[0] as int < RUNE_SELF
    ensures ToLower(u, t) == [LowerByte(t[0])] + ToLower(u, t[1..])
  {}

  lemma DecodesSane(u: Unicode, t: string)
    requires t != "" && t[0] as int >= RUNE_SELF && Sane(u)
    ensures 1 <= u.decode(t).1 <= |t| && u.encode(u.lower(u.decode(t).0)) != ""
  {
    hide SaneRune;
    NeverEmpty(u, u.decode(t).0);
  }

  lemma NeverEmpty(u: Unicode, r: int)
    ensures SaneRune(u, r) ==> u.encode(u.lower(r)) != ""
  {}

  lemma LowerFirstRune(u: Unicode, t: string)
    requires t != "" && t[0] as int >= RUNE_SELF && 1 <= u.decode(t).1 <= |t|
    ensures ToLower(u, t) == u.encode(u.lower(u.decode(t).0)) + ToLower(u, t[u.decode(t).1..])
  {}

  lemma LowerRune(u: Unicode, t: string)
    requires t != "" && t[0] as int >= RUNE_SELF && Sane(u)
    ensures var d := u.decode(t);
            var e := u.encode(u.lower(d.0));
            e != "" && 1 <= d.1 <= |t| && ToLower(u, t) == [e[0]] + (e[1..] + ToLower(u, t[d.1..]))
  {
    hide ToLower, Sane;
    DecodesSane(u, t);
    LowerFirstRune(u, t);
    HeadApart(u.encode(u.lower(u.decode(t).0)), ToLower(u, t[u.decode(t).1..]));
  }

  lemma HeadApart(e: string, x: string)
    requires e != ""
    ensures e + x == [e[0]] + (e[1..] + x)
  {}

  /** Decides whether the two views are the same text, without writing either out. */
  method FoldEqual(u: Unicode, a: string, lowerA: bool, b: string, lowerB: bool) returns (eq: bool)
    requires Sane(u)
    ensures eq == (View(u, a, lowerA) == View(u, b, lowerB))
  {
    hide Sane, ToLower;
    if !lowerA && !lowerB { return a == b; }
    var x := new ByteIter(u, a, lowerA);
    var y := new ByteIter(u, b, lowerB);
    while true
      invariant x.i <= |x.s| && y.i <= |y.s| && x.u == y.u == u && x != y
      invariant View(u, a, lowerA) == View(u, b, lowerB) <==> x.Rest() == y.Rest()
      decreases |x.Rest()|
    {
      ghost var p, q := x.Rest(), y.Rest();
      var cx, okx := x.Next();
      var cy, oky := y.Next();
      assert okx ==> p[0] == cx;
      assert oky ==> q[0] == cy;
      if okx != oky || cx != cy { return false; }
      if !okx { return true; }
      assert p == q <==> x.Rest() == y.Rest() by {
        assert p[1..] == x.Rest() && q[1..] == y.Rest();
      }
    }
  }

  /** Decides whether the view of prefix begins the view of s, without writing either out. */
  method FoldHasPrefix(u: Unicode, s: string, lowerS: bool, prefix: string, lowerP: bool) returns (has: bool)
    requires Sane(u)
    ensures has == (View(u, prefix, lowerP) <= View(u, s, lowerS))
  {
    hide Sane, ToLower;
    if !lowerS && !lowerP { return |s| >= |prefix| && s[..|prefix|] == prefix; }
    var x := new ByteIter(u, s, lowerS);
    var p := new ByteIter(u, prefix, lowerP);
    while true
      invariant x.i <= |x.s| && p.i <= |p.s| && x.u == p.u == u && x != p
      invariant View(u, prefix, lowerP) <= View(u, s, lowerS) <==> p.Rest() <= x.Rest()
      decreases |p.Rest()|
    {
      ghost var a, b := x.Rest(), p.Rest();
      var cp, okp := p.Next();
      if !okp { return true; }
      var cx, okx := x.Next();
      assert b[0] == cp;
      assert okx ==> a[0] == cx;
      if !okx || cx != cp { return false; }
      assert b <= a <==> p.Rest() <= x.Rest() by {
        assert a[1..] == x.Rest() && b[1..] == p.Rest();
        assert a == [cx] + x.Rest() && b == [cp] + p.Rest();
      }
    }
  }

  /** Writes a lowered string into a buffer, or reports that it does not fit. */
  method LowerInto(u: Unicode, buf: array<char>, s: string) returns (n: nat, ok: bool)
    requires Sane(u)
    modifies buf
    ensures ok == (|ToLower(u, s)| <= buf.Length)
    ensures ok ==> n <= buf.Length && buf[..n] == ToLower(u, s)
  {
    hide Sane, ToLower;
    var it := new ByteIter(u, s, true);
    n := 0;
    while true
      invariant it.i <= |it.s| && it.u == u && n <= buf.Length
      invariant buf[..n] + it.Rest() == ToLower(u, s)
      decreases |it.Rest()|
    {
      ghost var rest := it.Rest();
      var c, ok1 := it.Next();
      if !ok1 { return n, true; }
      assert |ToLower(u, s)| == n + |rest|;
      if n == buf.Length { return 0, false; }
      ghost var was := buf[..n];
      buf[n] := c;
      n := n + 1;
      assert buf[..n] == was + [c];
      assert buf[..n] + it.Rest() == was + rest;
    }
  }
}
