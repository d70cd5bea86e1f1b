/** The Merkle root of the audit log: the level-by-level loop, and what tree it computes. */
module Merkle {
  import opened Basics

  /** How two nodes make their parent. */
  type Join<!T> = (T, T) -> T

  function LevelSize(n: nat): nat { (n + 1) / 2 }

  /** One pass over `chunks(2)`: each pair makes one node, an odd last node is paired with itself. */
  function Level<T>(join: Join<T>, xs: seq<T>): (ys: seq<T>)
    ensures |ys| == LevelSize(|xs|)
    decreases |xs|
  {
    if xs == [] then []
    else if |xs| == 1 then [join(xs[0], xs[0])]
    else [join(xs[0], xs[1])] + Level(join, xs[2..])
  }

  lemma LevelFrom<T>(join: Join<T>, xs: seq<T>, i: nat)
    requires i < |xs|
    ensures Level(join, xs[i..]) ==
            [join(xs[i], if i + 1 < |xs| then xs[i + 1] else xs[i])]
            + Level(join, xs[if i + 2 <= |xs| then i + 2 else |xs|..])
  {
    if i + 1 < |xs| {
      assert xs[i..][2..] == xs[i + 2..];
    }
  }

  /** Halve level by level until one node is left. */
  function Fold<T>(join: Join<T>, xs: seq<T>): T
    requires xs != []
    decreases |xs|
  {
    if |xs| == 1 then xs[0] else Fold(join, Level(join, xs))
  }

  function Depth(n: nat): nat
  {
    if n <= 1 then 0 else 1 + Depth(LevelSize(n))
  }

  function Pow2(d: nat): (p: nat)
    ensures p >= 1
  {
    if d == 0 then 1 else 2 * Pow2(d - 1)
  }

  /** Nodes made for `n` leaves. */
  function JoinCount(n: nat): nat {
    if n <= 1 then 0 else LevelSize(n) + JoinCount(LevelSize(n))
  }

  // ── The same root, top down ───────────────────────────────────────

  /**
   The root of the tree of depth `d` built from the top: the left subtree takes the first 2^(d-1) leaves and
   the right one the rest; a right subtree with no leaves is a copy of the left one. With exactly 2^d
   leaves no copying happens and this is the plain perfect tree.
   */
  function Tree<T>(join: Join<T>, xs: seq<T>, d: nat): T
    requires 1 <= |xs| <= Pow2(d)
    decreases d
  {
    if d == 0 then xs[0]
    else if |xs| <= Pow2(d - 1) then
      var t := Tree(join, xs, d - 1);
      join(t, t)
    else
      join(Tree(join, xs[..Pow2(d - 1)], d - 1), Tree(join, xs[Pow2(d - 1)..], d - 1))
  }

  lemma {:induction false} DepthFits(n: nat)
    requires n >= 1
    ensures n <= Pow2(Depth(n))
    ensures n >= 2 ==> Pow2(Depth(n) - 1) < n
  {
    if n > 2 {
      DepthFits(LevelSize(n));
      assert Pow2(Depth(n) - 1) == 2 * Pow2(Depth(n) - 2);
    }
  }

  lemma {:induction false} LevelSplit<T>(join: Join<T>, xs: seq<T>, m: nat)
    requires 2 * m <= |xs|
    ensures Level(join, xs) == Level(join, xs[..2 * m]) + Level(join, xs[2 * m..])
    decreases m
  {
    if m == 0 {
      assert xs[0..] == xs;
    } else {
      LevelSplit(join, xs[2..], m - 1);
      assert xs[2..][..2 * (m - 1)] == xs[..2 * m][2..];
      assert xs[2..][2 * (m - 1)..] == xs[2 * m..];
    }
  }

  lemma TreeOfHalves<T>(join: Join<T>, left: seq<T>, right: seq<T>, d: nat)
    requires |left| == Pow2(d) && 1 <= |right| <= Pow2(d)
    ensures Tree(join, left + right, d + 1) == join(Tree(join, left, d), Tree(join, right, d))
  {
    assert (left + right)[..Pow2(d)] == left && (left + right)[Pow2(d)..] == right;
  }

  lemma TreeOfFew<T>(join: Join<T>, xs: seq<T>, d: nat)
    requires 1 <= |xs| <= Pow2(d)
    ensures Tree(join, xs, d + 1) == join(Tree(join, xs, d), Tree(join, xs, d))
  {
  }

  /** Making one level and then building a tree one shallower gives the same root. */
  lemma {:induction false} TreeOfLevel<T>(join: Join<T>, xs: seq<T>, d: nat)
    requires 1 <= |xs| <= Pow2(d + 1)
    ensures Tree(join, xs, d + 1) == Tree(join, Level(join, xs), d)
    decreases d, 0
  {
    if d == 0 {
      TreeOfPair(join, xs);
    } else if |xs| <= Pow2(d) {
      TreeOfLevel(join, xs, d - 1);
      TreeOfFew(join, xs, d);
      TreeOfFew(join, Level(join, xs), d - 1);
    } else {
      TreeOfManyLevels(join, xs[..Pow2(d)], xs[Pow2(d)..], d - 1);
      assert xs == xs[..Pow2(d)] + xs[Pow2(d)..];
    }
  }

  lemma {:induction false} TreeOfManyLevels<T>(join: Join<T>, left: seq<T>, right: seq<T>, d: nat)
    requires |left| == Pow2(d + 1) && 1 <= |right| <= Pow2(d + 1)
    ensures Tree(join, left + right, d + 2) == Tree(join, Level(join, left + right), d + 1)
    decreases d, 1
  {
    TreeOfLevel(join, left, d);
    TreeOfLevel(join, right, d);
    TreeOfHalves(join, left, right, d + 1);
    LevelSplit(join, left + right, Pow2(d));
    assert (left + right)[..2 * Pow2(d)] == left && (left + right)[2 * Pow2(d)..] == right;
    TreeOfHalves(join, Level(join, left), Level(join, right), d);
  }

  lemma {:induction false} TreeOfPair<T>(join: Join<T>, xs: seq<T>)
    requires 1 <= |xs| <= Pow2(1)
    ensures Tree(join, xs, 1) == Tree(join, Level(join, xs), 0)
  {
    if |xs| == 2 {
      assert xs[..1] == [xs[0]] && xs[1..] == [xs[1]] && xs[2..] == [];
      assert Tree(join, xs[..1], 0) == xs[0] && Tree(join, xs[1..], 0) == xs[1];
    } else {
      assert Tree(join, xs, 0) == xs[0];
    }
  }

  /** The loop's root is the top-down tree's, for every number of leaves. */
  lemma {:induction false} FoldIsTree<T>(join: Join<T>, xs: seq<T>)
    requires xs != []
    ensures |xs| <= Pow2(Depth(|xs|)) && Fold(join, xs) == Tree(join, xs, Depth(|xs|))
    decreases |xs|
  {
    DepthFits(|xs|);
    if |xs| > 1 {
      FoldIsTree(join, Level(join, xs));
      TreeOfLevel(join, xs, Depth(|xs|) - 1);
    }
  }

  /** At most n - 1 + ceil(log2 n) nodes are made, where 2^(ceil(log2 n) - 1) < n <= 2^ceil(log2 n). */
  lemma {:induction false} JoinCountBound(n: nat)
    requires n >= 1
    ensures JoinCount(n) <= n - 1 + Depth(n)
    ensures n <= Pow2(Depth(n)) && (n >= 2 ==> Pow2(Depth(n) - 1) < n)
  {
    DepthFits(n);
    if n > 1 {
      JoinCountBound(LevelSize(n));
    }
  }

  // ── The padded tree ───────────────────────────────────────────────

  /** `xs` filled up to 2^d leaves with copies of its last one. */
  function Pad<T>(xs: seq<T>, d: nat): (ys: seq<T>)
    requires 1 <= |xs| <= Pow2(d)
    ensures |ys| == Pow2(d)
  {
    xs + seq(Pow2(d) - |xs|, _ => xs[|xs| - 1])
  }

  function PaddedTree<T>(join: Join<T>, xs: seq<T>): T
    requires xs != []
  {
    DepthFits(|xs|);
    Tree(join, Pad(xs, Depth(|xs|)), Depth(|xs|))
  }

  predicate IsPow2(n: nat) { n == 1 || (n > 1 && n % 2 == 0 && IsPow2(n / 2)) }

  /** Halving `n`, rounding up, stays odd until it reaches a power of two: 1, 2, 3, 4, 5, 7, 8, 9, 13, 15, 16, ... */
  predicate PadsEvenly(n: nat) {
    IsPow2(n) || (n > 1 && n % 2 == 1 && PadsEvenly(LevelSize(n)))
  }

  lemma {:induction false} Pow2IsFull(n: nat)
    requires IsPow2(n)
    ensures n == Pow2(Depth(n))
  {
    if n > 1 { Pow2IsFull(n / 2); }
  }

  lemma {:induction false} LevelOfPadding<T>(join: Join<T>, x: T, k: nat)
    ensures Level(join, seq(2 * k, _ => x)) == seq(k, _ => join(x, x))
  {
    if k > 0 {
      LevelOfPadding(join, x, k - 1);
      assert seq(2 * k, _ => x)[2..] == seq(2 * (k - 1), _ => x);
    }
  }

  lemma {:induction false} LevelOfOdd<T>(join: Join<T>, xs: seq<T>, m: nat)
    requires |xs| == 2 * m + 1
    ensures Level(join, xs) == Level(join, xs[..2 * m]) + [join(xs[2 * m], xs[2 * m])]
  {
    LevelSplit(join, xs, m);
    assert xs[2 * m..] == [xs[2 * m]];
  }

  lemma {:induction false} LevelOfFilled<T>(join: Join<T>, front: seq<T>, x: T, m: nat, copies: nat)
    requires |front| == 2 * m
    ensures Level(join, front + seq(2 * copies, _ => x)) == Level(join, front) + seq(copies, _ => join(x, x))
  {
    var filled := front + seq(2 * copies, _ => x);
    LevelSplit(join, filled, m);
    assert filled[..2 * m] == front && filled[2 * m..] == seq(2 * copies, _ => x);
    LevelOfPadding(join, x, copies);
  }

  /** With an odd number of leaves, padding and making a level can be swapped. */
  lemma {:induction false} LevelOfPad<T>(join: Join<T>, xs: seq<T>, d: nat)
    requires d >= 1 && |xs| % 2 == 1 && |xs| <= Pow2(d)
    ensures LevelSize(|xs|) <= Pow2(d - 1)
    ensures Level(join, Pad(xs, d)) == Pad(Level(join, xs), d - 1)
  {
    var m := |xs| / 2;
    var x := xs[2 * m];
    var copies := Pow2(d - 1) - m;
    assert Pad(xs, d) == xs[..2 * m] + seq(2 * copies, _ => x);
    LevelOfFilled(join, xs[..2 * m], x, m, copies);
    LevelOfOdd(join, xs, m);
    assert seq(copies, _ => join(x, x)) == [join(x, x)] + seq(copies - 1, _ => join(x, x));
  }

  lemma {:induction false} PaddedTreeOfPow2<T>(join: Join<T>, xs: seq<T>)
    requires IsPow2(|xs|)
    ensures xs != [] && Fold(join, xs) == PaddedTree(join, xs)
  {
    DepthFits(|xs|);
    Pow2IsFull(|xs|);
    assert Pad(xs, Depth(|xs|)) == xs;
    FoldIsTree(join, xs);
  }

  /** For an odd number of leaves it is enough to pad the level above. */
  lemma {:induction false} PaddedTreeOfOdd<T>(join: Join<T>, xs: seq<T>)
    requires |xs| > 1 && |xs| % 2 == 1
    ensures PaddedTree(join, xs) == PaddedTree(join, Level(join, xs))
  {
    var d := Depth(|xs|);
    DepthFits(|xs|);
    LevelOfPad(join, xs, d);
    TreeOfLevel(join, Pad(xs, d), d - 1);
  }

  lemma {:induction false} PaddedTreeAgrees<T>(join: Join<T>, xs: seq<T>)
    requires xs != [] && PadsEvenly(|xs|)
    ensures Fold(join, xs) == PaddedTree(join, xs)
    decreases |xs|
  {
    if IsPow2(|xs|) {
      PaddedTreeOfPow2(join, xs);
    } else {
      PaddedTreeAgrees(join, Level(join, xs));
      PaddedTreeOfOdd(join, xs);
    }
  }

  // ── Where the padded tree differs ─────────────────────────────────

  /** `join` adds `zero` and `one` modulo 2. */
  predicate IsParity<T(==)>(join: Join<T>, zero: T, one: T) {
    && zero != one
    && join(zero, zero) == zero && join(one, one) == zero
    && join(zero, one) == one && join(one, zero) == one
  }

  /** `n` leaves, all `zero` but the one at `p`. */
  function OneAt<T>(zero: T, one: T, n: nat, p: nat): (xs: seq<T>)
    ensures |xs| == n
  {
    seq(n, i => if i == p then one else zero)
  }

  lemma {:induction false} LevelOfOne<T>(join: Join<T>, zero: T, one: T, n: nat, p: nat)
    requires IsParity(join, zero, one)
    ensures Level(join, OneAt(zero, one, n, p))
            == OneAt(zero, one, LevelSize(n), if p >= n || (p == n - 1 && n % 2 == 1) then n else p / 2)
    decreases n
  {
    var xs := OneAt(zero, one, n, p);
    if n >= 2 {
      var q := if p < 2 then n else p - 2;
      assert xs[2..] == OneAt(zero, one, n - 2, q);
      LevelOfOne(join, zero, one, n - 2, q);
    }
  }

  lemma {:induction false} FoldOfZeros<T>(join: Join<T>, zero: T, one: T, n: nat, p: nat)
    requires IsParity(join, zero, one) && n >= 1 && p >= n
    ensures Fold(join, OneAt(zero, one, n, p)) == zero
    decreases n
  {
    if n > 1 {
      LevelOfOne(join, zero, one, n, p);
      FoldOfZeros(join, zero, one, LevelSize(n), n);
    }
  }

  /** A last leaf survives exactly when it is never paired with itself. */
  lemma {:induction false} FoldOfLast<T>(join: Join<T>, zero: T, one: T, n: nat)
    requires IsParity(join, zero, one) && n >= 1
    ensures Fold(join, OneAt(zero, one, n, n - 1)) == if IsPow2(n) then one else zero
    decreases n
  {
    if n > 1 {
      LevelOfOne(join, zero, one, n, n - 1);
      if n % 2 == 0 {
        FoldOfLast(join, zero, one, n / 2);
      } else {
        FoldOfZeros(join, zero, one, LevelSize(n), n);
      }
    }
  }

  lemma {:induction false} FoldOfLastButOne<T>(join: Join<T>, zero: T, one: T, n: nat)
    requires IsParity(join, zero, one) && n >= 2
    ensures Fold(join, OneAt(zero, one, n, n - 2)) == if PadsEvenly(n) then one else zero
    decreases n
  {
    LevelOfOne(join, zero, one, n, n - 2);
    if n % 2 == 0 {
      FoldOfLast(join, zero, one, n / 2);
    } else {
      FoldOfLastButOne(join, zero, one, LevelSize(n));
    }
  }

  lemma {:induction false} FullFoldOfOne<T>(join: Join<T>, zero: T, one: T, d: nat, p: nat)
    requires IsParity(join, zero, one) && p < Pow2(d)
    ensures Fold(join, OneAt(zero, one, Pow2(d), p)) == one
    decreases d
  {
    if d > 0 {
      LevelOfOne(join, zero, one, Pow2(d), p);
      FullFoldOfOne(join, zero, one, d - 1, p / 2);
    }
  }

  lemma {:induction false} DepthOfPow2(d: nat)
    ensures Depth(Pow2(d)) == d
  {
    if d > 0 { DepthOfPow2(d - 1); }
  }

  lemma {:induction false} PaddedTreeDiffers<T>(join: Join<T>, zero: T, one: T, n: nat)
    requires IsParity(join, zero, one) && n >= 1 && !PadsEvenly(n)
    ensures n >= 2
    ensures var xs := OneAt(zero, one, n, n - 2); Fold(join, xs) != PaddedTree(join, xs)
  {
    var xs := OneAt(zero, one, n, n - 2);
    var d := Depth(n);
    DepthFits(n);
    FoldOfLastButOne(join, zero, one, n);
    assert Pad(xs, d) == OneAt(zero, one, Pow2(d), n - 2);
    FullFoldOfOne(join, zero, one, d, n - 2);
    DepthOfPow2(d);
    FoldIsTree(join, Pad(xs, d));
  }

  // ── Over digests ──────────────────────────────────────────────────

  function NodeInput(left: Digest, right: Digest): Bytes { left + right }

  /** One hash call of the loop: SHA3-256(left || right). */
  function Node(h: HashFn, left: Digest, right: Digest): Digest {
    h(NodeInput(left, right))
  }

  function NodeJoin(h: HashFn): Join<Digest> {
    (left: Digest, right: Digest) => Node(h, left, right)
  }

  function Root(h: HashFn, leaves: seq<Digest>): Digest {
    if leaves == [] then ZERO_DIGEST else Fold(NodeJoin(h), leaves)
  }

  /** `merkle_root`, with the number of hash calls it made. */
  method MerkleRoot(h: HashFn, leaves: seq<Digest>) returns (root: Digest, ghost calls: nat)
    ensures root == Root(h, leaves)
    ensures leaves != [] ==> |leaves| <= Pow2(Depth(|leaves|)) && root == Tree(NodeJoin(h), leaves, Depth(|leaves|))
    ensures calls == JoinCount(|leaves|) && (leaves != [] ==> calls <= |leaves| - 1 + Depth(|leaves|))
  {
    calls := 0;
    if leaves == [] {
      return ZERO_DIGEST, 0;
    }
    FoldIsTree(NodeJoin(h), leaves);
    JoinCountBound(|leaves|);
    if |leaves| == 1 {
      return leaves[0], 0;
    }
    var currentLevel := leaves;
    while |currentLevel| > 1
      invariant |currentLevel| >= 1
      invariant Fold(NodeJoin(h), currentLevel) == Fold(NodeJoin(h), leaves)
      invariant calls + JoinCount(|currentLevel|) == JoinCount(|leaves|)
      decreases |currentLevel|
    {
      currentLevel := NextLevel(h, currentLevel);
      calls := calls + |currentLevel|;
    }
    root := currentLevel[0];
  }

  /** The loop over `chunks(2)`. */
  method NextLevel(h: HashFn, currentLevel: seq<Digest>) returns (nextLevel: seq<Digest>)
    ensures nextLevel == Level(NodeJoin(h), currentLevel)
  {
    nextLevel := [];
    var i := 0;
    while i < |currentLevel|
      invariant i <= |currentLevel|
      invariant nextLevel + Level(NodeJoin(h), currentLevel[i..]) == Level(NodeJoin(h), currentLevel)
    {
      LevelFrom(NodeJoin(h), currentLevel, i);
      var right := if i + 1 < |currentLevel| then currentLevel[i + 1] else currentLevel[i];
      nextLevel := nextLevel + [Node(h, currentLevel[i], right)];
      i := if i + 2 <= |currentLevel| then i + 2 else |currentLevel|;
    }
  }

  function PaddedRoot(h: HashFn, leaves: seq<Digest>): Digest
    requires leaves != []
  {
    PaddedTree(NodeJoin(h), leaves)
  }

  const ONE_DIGEST: Digest := ZERO_DIGEST[31 := 1]

  /** A hash that adds the last bits of its two halves. */
  function ParityHash(b: Bytes): Digest {
    if |b| == 64 && b[31] != b[63] then ONE_DIGEST else ZERO_DIGEST
  }

  /**
   Padding the leaves to a power of two with copies of the last one describes the loop's root, whatever the hash and
   the leaves, exactly for the leaf counts that pad evenly. Six is the first count for which it does not.
   */
  lemma {:induction false} PaddingCondition(n: nat)
    requires n >= 1
    ensures PadsEvenly(n) <==>
            forall h: HashFn, leaves: seq<Digest> | |leaves| == n :: Root(h, leaves) == PaddedRoot(h, leaves)
    ensures PadsEvenly(5) && !PadsEvenly(6) && PadsEvenly(7)
  {
    if PadsEvenly(n) {
      forall h: HashFn, leaves: seq<Digest> | |leaves| == n ensures Root(h, leaves) == PaddedRoot(h, leaves) {
        PaddedTreeAgrees(NodeJoin(h), leaves);
      }
    } else {
      ParityOfDigests();
      PaddedTreeDiffers(NodeJoin(ParityHash), ZERO_DIGEST, ONE_DIGEST, n);
      var leaves := OneAt(ZERO_DIGEST, ONE_DIGEST, n, n - 2);
      assert Root(ParityHash, leaves) != PaddedRoot(ParityHash, leaves);
    }
  }

  lemma ParityOfDigests()
    ensures IsParity(NodeJoin(ParityHash), ZERO_DIGEST, ONE_DIGEST)
  {
    assert (ZERO_DIGEST + ZERO_DIGEST)[31] == 0 && (ZERO_DIGEST + ZERO_DIGEST)[63] == 0;
    assert (ZERO_DIGEST + ONE_DIGEST)[31] == 0 && (ZERO_DIGEST + ONE_DIGEST)[63] == 1;
    assert (ONE_DIGEST + ZERO_DIGEST)[31] == 1 && (ONE_DIGEST + ZERO_DIGEST)[63] == 0;
    assert (ONE_DIGEST + ONE_DIGEST)[31] == 1 && (ONE_DIGEST + ONE_DIGEST)[63] == 1;
    assert ZERO_DIGEST[31] == 0 && ONE_DIGEST[31] == 1;
  }

  // ── Binding ───────────────────────────────────────────────────────

  function LevelInputs(xs: seq<Digest>): (inputs: seq<Bytes>)
    ensures |inputs| == LevelSize(|xs|)
    decreases |xs|
  {
    if xs == [] then []
    else if |xs| == 1 then [NodeInput(xs[0], xs[0])]
    else [NodeInput(xs[0], xs[1])] + LevelInputs(xs[2..])
  }

  /** Everything the loop feeds to the hash, in order. */
  function HashInputs(h: HashFn, xs: seq<Digest>): (inputs: seq<Bytes>)
    requires xs != []
    ensures |inputs| == JoinCount(|xs|)
    decreases |xs|
  {
    if |xs| == 1 then [] else LevelInputs(xs) + HashInputs(h, Level(NodeJoin(h), xs))
  }

  /** Somewhere along the two lists the hash collides. */
  predicate CollideAlong(h: HashFn, a: seq<Bytes>, b: seq<Bytes>) {
    |a| == |b| && exists i | 0 <= i < |a| :: Collide(h, a[i], b[i])
  }

  lemma CollideAlongConcat(h: HashFn, a: seq<Bytes>, b: seq<Bytes>, a': seq<Bytes>, b': seq<Bytes>)
    requires |a| == |b| && |a'| == |b'|
    requires CollideAlong(h, a, b) || CollideAlong(h, a', b')
    ensures CollideAlong(h, a + a', b + b')
  {
    if CollideAlong(h, a, b) {
      var i :| 0 <= i < |a| && Collide(h, a[i], b[i]);
      assert Collide(h, (a + a')[i], (b + b')[i]);
    } else {
      var i :| 0 <= i < |a'| && Collide(h, a'[i], b'[i]);
      assert Collide(h, (a + a')[|a| + i], (b + b')[|b| + i]);
    }
  }

  lemma {:induction false} LevelHashesInputs(h: HashFn, xs: seq<Digest>)
    ensures forall i | 0 <= i < LevelSize(|xs|) :: Level(NodeJoin(h), xs)[i] == h(LevelInputs(xs)[i])
    decreases |xs|
  {
    if |xs| > 1 { LevelHashesInputs(h, xs[2..]); }
  }

  lemma {:induction false} LevelInputsInjective(xs: seq<Digest>, ys: seq<Digest>)
    requires |xs| == |ys| && LevelInputs(xs) == LevelInputs(ys)
    ensures xs == ys
    decreases |xs|
  {
    if |xs| == 1 {
      SameNodeInput(xs[0], xs[0], ys[0], ys[0]);
    } else if |xs| > 1 {
      assert LevelInputs(xs)[0] == LevelInputs(ys)[0] && LevelInputs(xs)[1..] == LevelInputs(ys)[1..];
      SameNodeInput(xs[0], xs[1], ys[0], ys[1]);
      LevelInputsInjective(xs[2..], ys[2..]);
      assert xs == [xs[0], xs[1]] + xs[2..] && ys == [ys[0], ys[1]] + ys[2..];
    }
  }

  lemma SameNodeInput(a: Digest, b: Digest, a': Digest, b': Digest)
    requires NodeInput(a, b) == NodeInput(a', b')
    ensures a == a' && b == b'
  {
    assert a == NodeInput(a, b)[..32] && b == NodeInput(a, b)[32..];
    assert a' == NodeInput(a', b')[..32] && b' == NodeInput(a', b')[32..];
  }

  lemma {:induction false} LevelBinding(h: HashFn, xs: seq<Digest>, ys: seq<Digest>)
    requires |xs| == |ys| && Level(NodeJoin(h), xs) == Level(NodeJoin(h), ys)
    ensures xs == ys || CollideAlong(h, LevelInputs(xs), LevelInputs(ys))
  {
    var a, b := LevelInputs(xs), LevelInputs(ys);
    LevelHashesInputs(h, xs);
    LevelHashesInputs(h, ys);
    if a == b {
      LevelInputsInjective(xs, ys);
    } else {
      var i :| 0 <= i < |a| && a[i] != b[i];
      assert Collide(h, a[i], b[i]);
    }
  }

  /**
   Merkle binding: equally many leaves with one root are the same leaves, or the two computations
   feed the hash two different inputs with one digest at the same step.
   */
  lemma {:induction false} MerkleBinding(h: HashFn, xs: seq<Digest>, ys: seq<Digest>)
    requires |xs| == |ys| > 0 && Root(h, xs) == Root(h, ys)
    ensures xs == ys || CollideAlong(h, HashInputs(h, xs), HashInputs(h, ys))
    decreases |xs|
  {
    if |xs| > 1 {
      var next, next' := Level(NodeJoin(h), xs), Level(NodeJoin(h), ys);
      MerkleBinding(h, next, next');
      if next == next' { LevelBinding(h, xs, ys); }
      if xs != ys {
        CollideAlongConcat(h, LevelInputs(xs), LevelInputs(ys), HashInputs(h, next), HashInputs(h, next'));
      }
    }
  }
}
