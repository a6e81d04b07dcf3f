/** Gradient-boosted trees: which parsed ones are accepted, the walk from the root to a leaf, and the contributions
of the features on the way (internal/model/lightgbm.go, predict.go and saabas.go). Values and thresholds are reals. */
module Trees {
  import opened Bits
  import opened Numbers
  import opened Domain

  datatype Missing = MissingNone | MissingZero | MissingNaN

  /** A child that is not negative is a node; child c below zero is leaf -1 - c. */
  datatype Node = Node(
    threshold: real, feature: nat, left: int, right: int, categorical: bool, defaultLeft: bool, missing: Missing,
    catLo: nat, catHi: nat)

  datatype Tree = Tree(nodes: seq<Node>, leaves: seq<real>, internal: seq<real>, catWords: seq<nat>)

  /** A child of node i: a later node, or a leaf. */
  predicate ChildOk(c: int, i: int, nodes: nat, leaves: nat) { if c >= 0 then i < c < nodes else -1 - c < leaves }

  predicate NodeOk(t: Tree, i: nat, features: nat)
    requires i < |t.nodes|
  {
    var nd := t.nodes[i];
    && nd.feature < features && nd.catLo <= nd.catHi <= |t.catWords|
    && ChildOk(nd.left, i, |t.nodes|, |t.leaves|) && ChildOk(nd.right, i, |t.nodes|, |t.leaves|)
  }

  ghost predicate Valid(t: Tree, features: nat) {
    && |t.leaves| == |t.nodes| + 1 && |t.internal| == |t.nodes|
    && forall i :: 0 <= i < |t.nodes| ==> NodeOk(t, i, features)
  }

  // ---- parsing -------------------------------------------------------------------------------

  /** The lists of one tree in the text format, each number already read. */
  datatype Raw = Raw(
    numLeaves: int, leaf: seq<real>, feature: seq<int>, threshold: seq<real>, decision: seq<int>,
    left: seq<int>, right: seq<int>, internal: seq<real>, numCat: int, bounds: seq<int>, words: seq<nat>)

  function Categories(r: Raw): nat { if r.numCat > 0 then r.numCat else 0 }

  predicate BoundsOk(r: Raw) {
    r.numCat > 0 ==>
      && |r.bounds| == r.numCat + 1 && |r.words| == r.bounds[r.numCat]
      && forall i :: 0 <= i < r.numCat ==> 0 <= r.bounds[i] <= r.bounds[i + 1]
  }

  predicate ListsOk(r: Raw) {
    var n := r.numLeaves - 1;
    && n >= 0 && |r.leaf| == r.numLeaves
    && (n > 0 ==>
          |r.feature| == |r.threshold| == |r.decision| == |r.left| == |r.right| == |r.internal| == n && BoundsOk(r))
  }

  /** The index of a categorical node's bit set. */
  predicate IsIndex(thr: real, ci: int) { ci as real == thr }

  predicate RowOk(r: Raw, features: nat, i: nat)
    requires ListsOk(r) && i < r.numLeaves - 1
  {
    && 0 <= r.feature[i] < features
    && ChildOk(r.left[i], i, r.numLeaves - 1, r.numLeaves) && ChildOk(r.right[i], i, r.numLeaves - 1, r.numLeaves)
    && r.decision[i] / 4 % 4 != 3
    && (r.decision[i] % 2 == 1 ==>
          IsIndex(r.threshold[i], r.threshold[i].Floor) && 0 <= r.threshold[i].Floor < Categories(r))
  }

  /** Which raw trees are read at all. */
  ghost predicate Acceptable(r: Raw, features: nat) {
    ListsOk(r) && forall i: nat :: i < r.numLeaves - 1 ==> RowOk(r, features, i)
  }

  function NodeOf(r: Raw, features: nat, i: nat): Node
    requires ListsOk(r) && i < r.numLeaves - 1 && RowOk(r, features, i)
  {
    var categorical, kind, ci := r.decision[i] % 2 == 1, r.decision[i] / 4 % 4, r.threshold[i].Floor;
    BoundsAt(r, features, i);
    Node(r.threshold[i], r.feature[i], r.left[i], r.right[i], categorical, r.decision[i] / 2 % 2 == 1,
         if kind == 0 then MissingNone else if kind == 1 then MissingZero else MissingNaN,
         if categorical then r.bounds[ci] else 0, if categorical then r.bounds[ci + 1] else 0)
  }

  lemma BoundsAt(r: Raw, features: nat, i: nat)
    requires ListsOk(r) && i < r.numLeaves - 1 && RowOk(r, features, i)
    ensures r.decision[i] % 2 == 1 ==>
              var ci := r.threshold[i].Floor; 0 <= ci < r.numCat && 0 <= r.bounds[ci] <= r.bounds[ci + 1] <= |r.words|
  {
    if r.decision[i] % 2 == 1 { BoundsRise(r, r.threshold[i].Floor + 1); }
  }

  lemma {:induction false} BoundsRise(r: Raw, i: nat)
    requires BoundsOk(r) && i <= r.numCat && r.numCat > 0
    ensures r.bounds[i] <= |r.words|
    decreases r.numCat - i
  {
    if i < r.numCat { BoundsRise(r, i + 1); }
  }

  /** Reads a tree, or refuses it: exactly the acceptable ones are read, and every tree read is valid. */
  method ParseTree(r: Raw, features: nat) returns (t: Option<Tree>)
    ensures t.Some? <==> Acceptable(r, features)
    ensures t.Some? ==>
              && Valid(t.value, features) && t.value.leaves == r.leaf
              && (r.numLeaves > 1 ==> t.value.internal == r.internal)
              && forall i: nat :: i < |t.value.nodes| ==> t.value.nodes[i] == NodeOf(r, features, i)
  {
    if !ListsOk(r) { return None; }
    if r.numLeaves == 1 { return Some(Tree([], r.leaf, [], [])); }
    var n := r.numLeaves - 1;
    var words := if r.numCat > 0 then r.words else [];
    var nodes: seq<Node> := [];
    for i := 0 to n
      invariant |nodes| == i && forall j: nat :: j < i ==> RowOk(r, features, j) && nodes[j] == NodeOf(r, features, j)
    {
      if !RowOk(r, features, i) { return None; }
      nodes := nodes + [NodeOf(r, features, i)];
    }
    t := Some(Tree(nodes, r.leaf, r.internal, words));
    forall i | 0 <= i < n ensures NodeOk(t.value, i, features) { BoundsAt(r, features, i); }
  }

  // ---- one decision -----------------------------------------------------------------------------

  /** The single-precision 1e-35. */
  const ZERO_THRESHOLD := 6968983.0 / 696898287454081973172991196020261297061888.0

  /** It is 1e-35 but for a part in ten million. */
  lemma ThresholdIsTiny()
    ensures var tenTo35 := 100000000000000000000000000000000000.0;
            0.9999999 < ZERO_THRESHOLD * tenTo35 < 1.0000001
  {}

  function Abs(v: real): real { if v < 0.0 then 0.0 - v else v }

  /** A number as the tree sees it: next to nothing is zero. */
  function Seen(v: Num): Num { if v.Fin? && Abs(v.v) <= ZERO_THRESHOLD then ZERO else v }

  predicate Bit(words: seq<nat>, c: nat)
    requires c / 32 < |words|
  {
    words[c / 32] / Pow2(c % 32) % 2 == 1
  }

  /** A category truncates toward zero. */
  function Category(v: real, n: nat): (c: nat)
    requires -1.0 < v < (32 * n) as real && n > 0
    ensures c < 32 * n
  {
    if v < 0.0 then 0 else v.Floor
  }

  /** A value between -1 and 0 is category 0, which an empty bit set has no word for: the lookup panics. */
  predicate Panics(nd: Node, v: Num) { nd.categorical && nd.catLo == nd.catHi && v.Fin? && -1.0 < v.v < 0.0 }

  /** Whether a node sends a value to its left child. */
  predicate GoesLeft(nd: Node, words: seq<nat>, v: Num)
    requires nd.catLo <= nd.catHi <= |words| && !Panics(nd, v)
  {
    if nd.categorical then
      var ws := words[nd.catLo..nd.catHi];
      && v.Fin? && v.v > -1.0 && v.v < (32 * |ws|) as real
      && Bit(ws, Category(v.v, |ws|))
    else
      var s := Seen(v);
      if s.NaN? && nd.missing.MissingNaN? then nd.defaultLeft
      else
        var z := if s.NaN? then ZERO else s;
        if nd.missing.MissingZero? && z == ZERO then nd.defaultLeft
        else !Less(Fin(nd.threshold), z)
  }

  /** At a numeric node small values go left: a value away from zero as it compares with the threshold, the infinities
  with the small and the large; one next to zero as zero does, unless zero counts as missing; one that is missing
  where the node says, or as zero does when the node has no word for it. */
  lemma NumbersGoByOrder(nd: Node, words: seq<nat>, v: Num)
    requires nd.catLo <= nd.catHi <= |words| && !nd.categorical
    ensures v == NegInf ==> GoesLeft(nd, words, v)
    ensures v == PosInf ==> !GoesLeft(nd, words, v)
    ensures v.Fin? && (v.v < -ZERO_THRESHOLD || ZERO_THRESHOLD < v.v) ==>
              (GoesLeft(nd, words, v) <==> v.v <= nd.threshold)
    ensures v.Fin? && -ZERO_THRESHOLD <= v.v <= ZERO_THRESHOLD && nd.missing != MissingZero ==>
              (GoesLeft(nd, words, v) <==> 0.0 <= nd.threshold)
    ensures v.Fin? && -ZERO_THRESHOLD <= v.v <= ZERO_THRESHOLD && nd.missing == MissingZero ==>
              (GoesLeft(nd, words, v) <==> nd.defaultLeft)
    ensures v == NaN && nd.missing != MissingNone ==> (GoesLeft(nd, words, v) <==> nd.defaultLeft)
    ensures v == NaN && nd.missing == MissingNone ==> (GoesLeft(nd, words, v) <==> 0.0 <= nd.threshold)
  {
    assert 0.0 < ZERO_THRESHOLD;
  }

  /** At a categorical node a value goes left exactly when the binary digit of its whole part is on in the node's set:
  digit c % 32 of word c / 32, the digits above it making up q and those below it rest. */
  lemma CategoriesGoByDigit(nd: Node, words: seq<nat>, v: real, c: nat, q: nat, on: bool, rest: nat)
    requires nd.catLo <= nd.catHi <= |words| && nd.categorical && c < 32 * (nd.catHi - nd.catLo)
    requires c as real <= v < (c + 1) as real || (c == 0 && -1.0 < v < 0.0)
    requires rest < Pow2(c % 32)
    requires words[nd.catLo + c / 32] == (2 * q + if on then 1 else 0) * Pow2(c % 32) + rest
    ensures GoesLeft(nd, words, Fin(v)) <==> on
  {
    var ws := words[nd.catLo..nd.catHi];
    var p := Pow2(c % 32);
    assert v < (32 * |ws|) as real;
    assert Category(v, |ws|) == c;
    assert ws[c / 32] / p == 2 * q + if on then 1 else 0 by { Quotient(p, 2 * q + if on then 1 else 0, rest); }
    hide Pow2;
  }

  lemma Quotient(p: nat, q: nat, rest: nat)
    requires rest < p
    ensures (q * p + rest) / p == q
  {
    QuotientUnique(q * p + rest, p, q, rest);
  }

  /** What has no place in the set goes right. */
  lemma StrangersGoRight(nd: Node, words: seq<nat>, v: Num)
    requires nd.catLo <= nd.catHi <= |words| && nd.categorical && !Panics(nd, v)
    requires v.Fin? ==> v.v <= -1.0 || (32 * (nd.catHi - nd.catLo)) as real <= v.v
    ensures !GoesLeft(nd, words, v)
  {}

  // ---- the walk ----------------------------------------------------------------------------------

  predicate PanicsAt(t: Tree, n: nat, x: seq<Num>)
    requires n < |t.nodes| && t.nodes[n].feature < |x|
  {
    Panics(t.nodes[n], x[t.nodes[n].feature])
  }

  function Next(t: Tree, n: nat, x: seq<Num>): (c: int)
    requires n < |t.nodes| && NodeOk(t, n, |x|) && !PanicsAt(t, n, x)
    ensures ChildOk(c, n, |t.nodes|, |t.leaves|)
  {
    var nd := t.nodes[n];
    if GoesLeft(nd, t.catWords, x[nd.feature]) then nd.left else nd.right
  }

  /** The walk from a node meets no node that panics. */
  ghost predicate Walks(t: Tree, n: nat, x: seq<Num>)
    requires Valid(t, |x|) && n < |t.nodes|
    decreases |t.nodes| - n
  {
    assert NodeOk(t, n, |x|);
    !PanicsAt(t, n, x) && var c := Next(t, n, x); c >= 0 ==> Walks(t, c, x)
  }

  /** The leaf reached from a node. */
  ghost function LeafFrom(t: Tree, n: nat, x: seq<Num>): nat
    requires Valid(t, |x|) && n < |t.nodes| && Walks(t, n, x)
    decreases |t.nodes| - n
  {
    var c := Next(t, n, x);
    if c < 0 then -1 - c else LeafFrom(t, c, x)
  }

  ghost predicate WalksTree(t: Tree, x: seq<Num>)
    requires Valid(t, |x|)
  {
    t.nodes != [] ==> Walks(t, 0, x)
  }

  ghost function LeafOf(t: Tree, x: seq<Num>): (leaf: nat)
    requires Valid(t, |x|) && WalksTree(t, x)
  {
    if t.nodes == [] then 0 else LeafFrom(t, 0, x)
  }

  /** The node does not panic. */
  predicate Steps(t: Tree, n: nat, x: seq<Num>)
    requires n < |t.nodes|
  {
    NodeOk(t, n, |x|) && !PanicsAt(t, n, x)
  }

  /** A path down from its first node: each node is where the one before sends x. */
  ghost predicate Follows(t: Tree, x: seq<Num>, path: seq<nat>) {
    && Valid(t, |x|) && path != [] && (forall i :: 0 <= i < |path| ==> path[i] < |t.nodes| && Steps(t, path[i], x))
    && forall i :: 0 <= i < |path| - 1 ==> path[i + 1] == Next(t, path[i], x)
  }

  /** The walk is every path that ends in a leaf: they all end in the same one, of those the tree has. */
  lemma {:induction false} OneLeaf(t: Tree, x: seq<Num>, path: seq<nat>)
    requires Follows(t, x, path) && Next(t, path[|path| - 1], x) < 0
    ensures Walks(t, path[0], x) && LeafFrom(t, path[0], x) == -1 - Next(t, path[|path| - 1], x) < |t.leaves|
  {
    if |path| > 1 {
      assert path[1] == Next(t, path[0], x);
      OneLeaf(t, x, path[1..]);
    }
  }

  /** With no empty bit set nothing panics, whatever the input. */
  lemma {:induction false} FullSetsWalk(t: Tree, n: nat, x: seq<Num>)
    requires Valid(t, |x|) && n < |t.nodes|
    requires forall i :: 0 <= i < |t.nodes| && t.nodes[i].categorical ==> t.nodes[i].catLo < t.nodes[i].catHi
    ensures Walks(t, n, x)
    decreases |t.nodes| - n
  {
    assert Steps(t, n, x);
    var c := Next(t, n, x);
    if c >= 0 { FullSetsWalk(t, c, x); }
  }

  /** A tree with an empty bit set is read, and panics on a value between -1 and 0. */
  lemma EmptySetPanics()
    ensures var r := Raw(2, [1.0, 2.0], [0], [0.0], [1], [-1], [-2], [0.0], 1, [0, 0], []);
            Acceptable(r, 1) && Valid(Tree([NodeOf(r, 1, 0)], r.leaf, r.internal, r.words), 1)
            && !WalksTree(Tree([NodeOf(r, 1, 0)], r.leaf, r.internal, r.words), [Fin(-0.5)])
  {
    var r := Raw(2, [1.0, 2.0], [0], [0.0], [1], [-1], [-2], [0.0], 1, [0, 0], []);
    assert RowOk(r, 1, 0);
    BoundsAt(r, 1, 0);
    assert NodeOf(r, 1, 0).catLo == NodeOf(r, 1, 0).catHi == 0;
  }

  lemma {:induction false} LeafInTree(t: Tree, n: nat, x: seq<Num>)
    requires Valid(t, |x|) && n < |t.nodes| && Walks(t, n, x)
    ensures LeafFrom(t, n, x) < |t.leaves|
    decreases |t.nodes| - n
  {
    var c := Next(t, n, x);
    if c >= 0 { LeafInTree(t, c, x); }
  }

  /** The walk ends in a leaf of the tree, or panics. */
  method Leaf(t: Tree, x: seq<Num>) returns (leaf: Option<nat>)
    requires Valid(t, |x|)
    ensures leaf.Some? <==> WalksTree(t, x)
    ensures leaf.Some? ==> leaf.value == LeafOf(t, x) < |t.leaves|
  {
    if |t.nodes| == 0 { return Some(0); }
    var n: int := 0;
    while n >= 0
      invariant n >= 0 ==> n < |t.nodes| && (Walks(t, n, x) <==> WalksTree(t, x))
      invariant n >= 0 && Walks(t, n, x) ==> LeafFrom(t, n, x) == LeafOf(t, x)
      invariant n < 0 ==> WalksTree(t, x) && -1 - n == LeafOf(t, x) < |t.leaves|
      decreases if n >= 0 then |t.nodes| - n else 0
    {
      assert NodeOk(t, n, |x|);
      if PanicsAt(t, n, x) { return None; }
      n := Next(t, n, x);
    }
    leaf := Some(-1 - n);
  }

  ghost predicate AllValid(trees: seq<Tree>, features: nat)
  {
    forall i :: 0 <= i < |trees| ==> Valid(trees[i], features)
  }

  /** No walk through the first k trees panics. */
  ghost predicate AllWalk(trees: seq<Tree>, x: seq<Num>, k: nat)
    requires AllValid(trees, |x|) && k <= |trees|
  {
    forall i :: 0 <= i < k ==> WalksTree(trees[i], x)
  }

  /** What the leaves of the first k trees add up to. */
  ghost function RawOf(trees: seq<Tree>, x: seq<Num>, k: nat): real
    requires AllValid(trees, |x|) && k <= |trees| && AllWalk(trees, x, k)
  {
    if k == 0 then 0.0 else RawOf(trees, x, k - 1) + LeafValue(trees[k - 1], x)
  }

  ghost function LeafValue(t: Tree, x: seq<Num>): real
    requires Valid(t, |x|) && WalksTree(t, x)
  {
    if t.nodes != [] then LeafInTree(t, 0, x); t.leaves[LeafOf(t, x)] else t.leaves[0]
  }

  method PredictRaw(trees: seq<Tree>, x: seq<Num>) returns (raw: Option<real>)
    requires AllValid(trees, |x|)
    ensures raw.Some? <==> AllWalk(trees, x, |trees|)
    ensures raw.Some? ==> raw.value == RawOf(trees, x, |trees|)
  {
    var sum := 0.0;
    for i := 0 to |trees|
      invariant AllWalk(trees, x, i) && sum == RawOf(trees, x, i)
    {
      var leaf := Leaf(trees[i], x);
      if leaf.None? { return None; }
      sum := sum + trees[i].leaves[leaf.value];
    }
    raw := Some(sum);
  }

  // ---- contributions --------------------------------------------------------------------------------

  /** The value of a child: a leaf's output, or what its node would have given as a leaf. */
  function Value(t: Tree, c: int): real
    requires |t.internal| == |t.nodes| && (c >= 0 ==> c < |t.nodes|) && (c < 0 ==> -1 - c < |t.leaves|)
  {
    if c >= 0 then t.internal[c] else t.leaves[-1 - c]
  }

  /** What one node's step changes the value by. */
  ghost function Gain(t: Tree, n: nat, x: seq<Num>): real
    requires Valid(t, |x|) && n < |t.nodes| && Steps(t, n, x)
  {
    Value(t, Next(t, n, x)) - t.internal[n]
  }

  /** What the splits on feature f, from a node down, change the value by. */
  ghost function Credit(t: Tree, n: nat, x: seq<Num>, f: nat): real
    requires Valid(t, |x|) && n < |t.nodes| && Walks(t, n, x)
    decreases |t.nodes| - n
  {
    var c := Next(t, n, x);
    (if t.nodes[n].feature == f then Gain(t, n, x) else 0.0) + if c >= 0 then Credit(t, c, x, f) else 0.0
  }

  ghost function TreeCredit(t: Tree, x: seq<Num>, f: nat): real
    requires Valid(t, |x|) && WalksTree(t, x)
  {
    if t.nodes == [] then 0.0 else Credit(t, 0, x, f)
  }

  function RootValue(t: Tree): real
    requires |t.leaves| > 0 && |t.internal| == |t.nodes|
  {
    if t.nodes == [] then t.leaves[0] else t.internal[0]
  }

  ghost function CreditOf(trees: seq<Tree>, x: seq<Num>, f: nat, k: nat): real
    requires AllValid(trees, |x|) && k <= |trees| && AllWalk(trees, x, k)
  {
    if k == 0 then 0.0 else CreditOf(trees, x, f, k - 1) + TreeCredit(trees[k - 1], x, f)
  }

  ghost function BiasOf(trees: seq<Tree>, features: nat, k: nat): real
    requires AllValid(trees, features) && k <= |trees|
  {
    if k == 0 then 0.0 else BiasOf(trees, features, k - 1) + RootValue(trees[k - 1])
  }

  /** What the first k numbers add up to. */
  ghost function Total(s: seq<real>, k: nat): real
    requires k <= |s|
  {
    if k == 0 then 0.0 else Total(s, k - 1) + s[k - 1]
  }

  ghost function Credits(t: Tree, n: nat, x: seq<Num>): seq<real>
    requires Valid(t, |x|) && n < |t.nodes| && Walks(t, n, x)
  {
    seq(|x|, f requires 0 <= f < |x| => Credit(t, n, x, f))
  }

  lemma {:induction false} AddsTo(a: seq<real>, b: seq<real>, c: seq<real>, k: nat)
    requires |a| == |b| == |c| && k <= |a| && forall i :: 0 <= i < |a| ==> a[i] == b[i] + c[i]
    ensures Total(a, k) == Total(b, k) + Total(c, k)
  {
    if k > 0 { AddsTo(a, b, c, k - 1); }
  }

  lemma {:induction false} OneOnly(s: seq<real>, at: nat, k: nat)
    requires at < |s| && k <= |s| && forall i :: 0 <= i < |s| && i != at ==> s[i] == 0.0
    ensures Total(s, k) == if at < k then s[at] else 0.0
  {
    if k > 0 { OneOnly(s, at, k - 1); }
  }

  /** The credits of a walk telescope to the leaf less where it began. */
  lemma {:induction false} Telescopes(t: Tree, n: nat, x: seq<Num>)
    requires Valid(t, |x|) && n < |t.nodes| && Walks(t, n, x)
    ensures LeafFrom(t, n, x) < |t.leaves|
    ensures Total(Credits(t, n, x), |x|) == t.leaves[LeafFrom(t, n, x)] - t.internal[n]
    decreases |t.nodes| - n
  {
    LeafInTree(t, n, x);
    assert NodeOk(t, n, |x|);
    var c, at := Next(t, n, x), t.nodes[n].feature;
    var here := seq(|x|, f => if f == at then Gain(t, n, x) else 0.0);
    OneOnly(here, at, |x|);
    if c >= 0 {
      Telescopes(t, c, x);
      AddsTo(Credits(t, n, x), here, Credits(t, c, x), |x|);
    } else {
      assert Credits(t, n, x) == here;
    }
  }

  ghost function AllCredits(trees: seq<Tree>, x: seq<Num>, k: nat): seq<real>
    requires AllValid(trees, |x|) && k <= |trees| && AllWalk(trees, x, k)
  {
    seq(|x|, f requires 0 <= f < |x| => CreditOf(trees, x, f, k))
  }

  lemma {:induction false} Zeros(s: seq<real>, k: nat)
    requires k <= |s| && forall i :: 0 <= i < |s| ==> s[i] == 0.0
    ensures Total(s, k) == 0.0
  {
    if k > 0 { Zeros(s, k - 1); }
  }

  /** The bias and all contributions add up to the raw score. */
  lemma {:induction false} AddsUp(trees: seq<Tree>, x: seq<Num>, k: nat)
    requires AllValid(trees, |x|) && k <= |trees| && AllWalk(trees, x, k)
    ensures BiasOf(trees, |x|, k) + Total(AllCredits(trees, x, k), |x|) == RawOf(trees, x, k)
  {
    if k == 0 {
      Zeros(AllCredits(trees, x, 0), |x|);
    } else {
      AddsUp(trees, x, k - 1);
      var t := trees[k - 1];
      var more := seq(|x|, f requires 0 <= f < |x| => TreeCredit(t, x, f));
      AddsTo(AllCredits(trees, x, k), AllCredits(trees, x, k - 1), more, |x|);
      if t.nodes == [] {
        Zeros(more, |x|);
      } else {
        Telescopes(t, 0, x);
        assert more == Credits(t, 0, x);
      }
    }
  }

  lemma {:induction false} UnsplitFrom(t: Tree, n: nat, x: seq<Num>, f: nat)
    requires Valid(t, |x|) && n < |t.nodes| && Walks(t, n, x)
    requires forall i :: 0 <= i < |t.nodes| ==> t.nodes[i].feature != f
    ensures Credit(t, n, x, f) == 0.0
    decreases |t.nodes| - n
  {
    var c := Next(t, n, x);
    if c >= 0 { UnsplitFrom(t, c, x, f); }
  }

  /** A feature no tree splits on is credited nothing. */
  lemma {:induction false} UnsplitGetsNothing(trees: seq<Tree>, x: seq<Num>, f: nat, k: nat)
    requires AllValid(trees, |x|) && k <= |trees| && AllWalk(trees, x, k)
    requires forall j, i :: 0 <= j < |trees| && 0 <= i < |trees[j].nodes| ==> trees[j].nodes[i].feature != f
    ensures CreditOf(trees, x, f, k) == 0.0
  {
    if k > 0 {
      UnsplitGetsNothing(trees, x, f, k - 1);
      if trees[k - 1].nodes != [] { UnsplitFrom(trees[k - 1], 0, x, f); }
    }
  }

  /** The raw score and, per feature, what its splits on the walks changed it by; with the bias they add up to it. */
  method PredictContributions(trees: seq<Tree>, x: seq<Num>, out: array<real>) returns (r: Option<(real, real)>)
    requires AllValid(trees, |x|) && out.Length == |x|
    modifies out
    ensures r.Some? <==> AllWalk(trees, x, |trees|)
    ensures r.Some? ==>
              && r.value.0 == RawOf(trees, x, |trees|) && r.value.1 == BiasOf(trees, |x|, |trees|)
              && (forall f :: 0 <= f < out.Length ==> out[f] == CreditOf(trees, x, f, |trees|))
              && r.value.1 + Total(out[..], out.Length) == r.value.0
  {
    for f := 0 to out.Length
      invariant forall g :: 0 <= g < f ==> out[g] == 0.0
    {
      out[f] := 0.0;
    }
    var raw, bias := 0.0, 0.0;
    for i := 0 to |trees|
      invariant AllWalk(trees, x, i) && raw == RawOf(trees, x, i) && bias == BiasOf(trees, |x|, i)
      invariant forall f :: 0 <= f < out.Length ==> out[f] == CreditOf(trees, x, f, i)
    {
      var value := AddTree(trees[i], x, out);
      if value.None? { return None; }
      raw := raw + value.value;
      bias := bias + RootValue(trees[i]);
    }
    AddsUp(trees, x, |trees|);
    assert out[..] == AllCredits(trees, x, |trees|);
    r := Some((raw, bias));
  }

  /** One tree's walk, crediting every step to the feature it splits on. */
  method AddTree(t: Tree, x: seq<Num>, out: array<real>) returns (value: Option<real>)
    requires Valid(t, |x|) && out.Length == |x|
    modifies out
    ensures value.Some? <==> WalksTree(t, x)
    ensures value.Some? ==>
              && value.value == LeafValue(t, x)
              && forall f :: 0 <= f < out.Length ==> out[f] == old(out[f]) + TreeCredit(t, x, f)
  {
    if |t.nodes| == 0 { return Some(t.leaves[0]); }
    var n: nat := 0;
    while true
      invariant n < |t.nodes| && (Walks(t, n, x) <==> WalksTree(t, x))
      invariant Walks(t, n, x) ==> LeafFrom(t, n, x) == LeafFrom(t, 0, x)
      invariant Walks(t, n, x) ==>
                  forall f :: 0 <= f < out.Length ==> out[f] + Credit(t, n, x, f) == old(out[f]) + TreeCredit(t, x, f)
      decreases |t.nodes| - n
    {
      assert NodeOk(t, n, |x|);
      if PanicsAt(t, n, x) { return None; }
      var feature, next := t.nodes[n].feature, Next(t, n, x);
      out[feature] := out[feature] + (Value(t, next) - t.internal[n]);
      if next < 0 { return Some(Value(t, next)); }
      n := next;
    }
  }
}
