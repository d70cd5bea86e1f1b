/** What a Merkle root says of each leaf: the way from the leaf to the root, hash call by hash call. */
module Inclusion {
  import opened Basics
  import opened Merkle

  // ── The way up ────────────────────────────────────────────────────

  /** The hashes of neighbours, left one first; a node without a right neighbour is hashed with itself. */
  function Parents(h: HashFn, xs: seq<Digest>): (ys: seq<Digest>)
    ensures |ys| == (|xs| + 1) / 2
  {
    seq((|xs| + 1) / 2, i requires 0 <= i < (|xs| + 1) / 2 =>
      var left: Bytes, right: Bytes := xs[2 * i], xs[if 2 * i + 1 < |xs| then 2 * i + 1 else 2 * i];
      h(left + right))
  }

  /** The other node of the pair, or the node itself. */
  function Sibling(xs: seq<Digest>, i: nat): Digest
    requires i < |xs|
  {
    if i % 2 == 1 then xs[i - 1] else if i + 1 < |xs| then xs[i + 1] else xs[i]
  }

  /** The siblings on the way up from position `i`. */
  function Path(h: HashFn, xs: seq<Digest>, i: nat): seq<Digest>
    requires i < |xs|
    decreases |xs|
  {
    if |xs| == 1 then [] else [Sibling(xs, i)] + Path(h, Parents(h, xs), i / 2)
  }

  /** What is hashed first on the way up. */
  function FirstInput(node: Digest, i: nat, sibling: Digest): Bytes {
    if i % 2 == 1 then sibling + node else node + sibling
  }

  /** Where the way up from `node` at position `i` ends. */
  function Climb(h: HashFn, node: Digest, i: nat, path: seq<Digest>): Digest
    decreases |path|
  {
    if path == [] then node else Climb(h, h(FirstInput(node, i, path[0])), i / 2, path[1..])
  }

  // ── It ends at the root ───────────────────────────────────────────

  lemma {:induction false} LevelAt(h: HashFn, xs: seq<Digest>, i: nat)
    requires i < LevelSize(|xs|)
    ensures var left: Bytes, right: Bytes := xs[2 * i], xs[if 2 * i + 1 < |xs| then 2 * i + 1 else 2 * i];
            Level(NodeJoin(h), xs)[i] == h(left + right)
    decreases |xs|
  {
    if i > 0 {
      LevelAt(h, xs[2..], i - 1);
    }
  }

  lemma {:induction false} LevelIsParents(h: HashFn, xs: seq<Digest>)
    ensures Level(NodeJoin(h), xs) == Parents(h, xs)
  {
    forall i | 0 <= i < LevelSize(|xs|) ensures Level(NodeJoin(h), xs)[i] == Parents(h, xs)[i] {
      LevelAt(h, xs, i);
    }
  }

  lemma ParentOf(h: HashFn, xs: seq<Digest>, i: nat)
    requires i < |xs|
    ensures i / 2 < |Parents(h, xs)| && Parents(h, xs)[i / 2] == h(FirstInput(xs[i], i, Sibling(xs, i)))
  {
    assert i == 2 * (i / 2) + i % 2;
  }

  /**
   The law of the root. From every leaf of any number of leaves, hashing at each level the left node before the right one,
   and a node without a right neighbour with itself, leads to the root; no leaves have the root of
   thirty-two zero bytes, and two leaves that of their concatenation.
   */
  lemma {:induction false} RootIncludes(h: HashFn, leaves: seq<Digest>, i: nat)
    requires i < |leaves|
    ensures Climb(h, leaves[i], i, Path(h, leaves, i)) == Root(h, leaves)
    ensures |Path(h, leaves, i)| == Depth(|leaves|)
    decreases |leaves|
  {
    if |leaves| > 1 {
      LevelIsParents(h, leaves);
      ParentOf(h, leaves, i);
      RootIncludes(h, Parents(h, leaves), i / 2);
    }
  }

  lemma {:induction false} SmallRoots(h: HashFn, a: Digest, b: Digest, c: Digest)
    ensures var x: Bytes, y: Bytes, z: Bytes := a, b, c;
            var left: Bytes, right: Bytes := h(x + y), h(z + z);
            && Root(h, []) == seq(32, _ => 0) && Root(h, [a]) == a
            && Root(h, [a, b]) == h(x + y) && Root(h, [a, b, c]) == h(left + right)
  {
    var x: Bytes, y: Bytes, z: Bytes := a, b, c;
    RootIncludes(h, [a], 0);
    RootIncludes(h, [a, b], 0);
    RootIncludes(h, [a, b, c], 0);
    assert Parents(h, [a, b]) == [h(x + y)];
    assert Parents(h, [a, b, c]) == [h(x + y), h(z + z)];
    assert Path(h, [a, b], 0) == [b];
    assert Path(h, [h(x + y), h(z + z)], 0) == [h(z + z)];
    assert Path(h, [a, b, c], 0) == [b, h(z + z)];
    ClimbOne(h, a, b);
    assert [b, h(z + z)][1..] == [h(z + z)];
    ClimbOne(h, h(x + y), h(z + z));
  }

  lemma {:induction false} ClimbOne(h: HashFn, node: Digest, sibling: Digest)
    ensures var left: Bytes := node; Climb(h, node, 0, [sibling]) == h(left + sibling)
  {
    var up := h(FirstInput(node, 0, sibling));
    assert [sibling][1..] == [];
    assert Climb(h, up, 0, []) == up;
  }

  // ── And no other leaf does ────────────────────────────────────────

  /** All that is hashed on the way up, in order. */
  function Inputs(h: HashFn, node: Digest, i: nat, path: seq<Digest>): seq<Bytes>
    decreases |path|
  {
    if path == [] then []
    else [FirstInput(node, i, path[0])] + Inputs(h, h(FirstInput(node, i, path[0])), i / 2, path[1..])
  }

  lemma SameFirst(x: Digest, y: Digest, i: nat, s: Digest, t: Digest)
    requires FirstInput(x, i, s) == FirstInput(y, i, t)
    ensures x == y && s == t
  {
    var a, b := FirstInput(x, i, s), FirstInput(y, i, t);
    assert a[..32] == (if i % 2 == 1 then s else x) && a[32..] == (if i % 2 == 1 then x else s);
    assert b[..32] == (if i % 2 == 1 then t else y) && b[32..] == (if i % 2 == 1 then y else t);
  }

  lemma {:induction false} ClimbBinds(h: HashFn, x: Digest, y: Digest, i: nat, path: seq<Digest>, path': seq<Digest>)
    requires |path| == |path'| && Climb(h, x, i, path) == Climb(h, y, i, path')
    ensures (x == y && path == path') || CollideAlong(h, Inputs(h, x, i, path), Inputs(h, y, i, path'))
    decreases |path|
  {
    if path != [] {
      var a, b := FirstInput(x, i, path[0]), FirstInput(y, i, path'[0]);
      var rest, rest' := Inputs(h, h(a), i / 2, path[1..]), Inputs(h, h(b), i / 2, path'[1..]);
      ClimbBinds(h, h(a), h(b), i / 2, path[1..], path'[1..]);
      SameInputs(h, h(a), i / 2, path[1..]);
      SameInputs(h, h(b), i / 2, path'[1..]);
      if CollideAlong(h, rest, rest') {
        CollideAlongConcat(h, [a], [b], rest, rest');
      } else if a != b {
        assert Collide(h, ([a] + rest)[0], ([b] + rest')[0]);
      } else {
        SameFirst(x, y, i, path[0], path'[0]);
        assert path == [path[0]] + path[1..] && path' == [path'[0]] + path'[1..];
      }
    }
  }

  lemma {:induction false} SameInputs(h: HashFn, node: Digest, i: nat, path: seq<Digest>)
    ensures |Inputs(h, node, i, path)| == |path|
    decreases |path|
  {
    if path != [] {
      SameInputs(h, h(FirstInput(node, i, path[0])), i / 2, path[1..]);
    }
  }

  /**
   A way of the right length from position `i` to the root starts at leaf `i` and takes its siblings, or two different
   inputs with one digest stand at the same step of it and of the leaf's own way.
   */
  lemma {:induction false} OnlyTheLeaf(h: HashFn, leaves: seq<Digest>, i: nat, x: Digest, path: seq<Digest>)
    requires i < |leaves| && |path| == Depth(|leaves|) && Climb(h, x, i, path) == Root(h, leaves)
    ensures || (x == leaves[i] && path == Path(h, leaves, i))
            || CollideAlong(h, Inputs(h, x, i, path), Inputs(h, leaves[i], i, Path(h, leaves, i)))
  {
    RootIncludes(h, leaves, i);
    ClimbBinds(h, x, leaves[i], i, path, Path(h, leaves, i));
  }
}
