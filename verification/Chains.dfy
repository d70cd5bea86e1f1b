/** Hash chains in general: a link names the hash before it and carries the hash of its own preimage. */
module Chains {
  datatype Link<+D, +P> = Link(prev: D, hash: D, pre: P)

  predicate LinkHolds<D(==), P>(h: P -> D, prev: D, l: Link<D, P>) {
    l.prev == prev && l.hash == h(l.pre)
  }

  /** The hash a chain ends on. */
  function Head<D, P>(zero: D, ls: seq<Link<D, P>>): D {
    if ls == [] then zero else ls[|ls| - 1].hash
  }

  function HashBefore<D, P>(zero: D, ls: seq<Link<D, P>>, i: nat): D
    requires i <= |ls|
  {
    if i == 0 then zero else ls[i - 1].hash
  }

  predicate LinkedAt<D(==), P>(h: P -> D, zero: D, ls: seq<Link<D, P>>, i: nat)
    requires i < |ls|
  {
    LinkHolds(h, HashBefore(zero, ls, i), ls[i])
  }

  /** Every link follows the one before it and carries its own hash. */
  predicate Chained<D(==), P>(h: P -> D, zero: D, ls: seq<Link<D, P>>) {
    forall i | 0 <= i < |ls| :: LinkedAt(h, zero, ls, i)
  }

  predicate LinksCollide<D(==), P(==)>(h: P -> D, a: Link<D, P>, b: Link<D, P>) {
    a.pre != b.pre && h(a.pre) == h(b.pre)
  }

  lemma ChainedNext<D, P>(h: P -> D, zero: D, ls: seq<Link<D, P>>, l: Link<D, P>)
    ensures Chained(h, zero, ls + [l]) <==> Chained(h, zero, ls) && LinkHolds(h, Head(zero, ls), l)
  {
    var t := ls + [l];
    forall i | 0 <= i < |ls| ensures LinkedAt(h, zero, t, i) <==> LinkedAt(h, zero, ls, i) {
    }
    assert LinkedAt(h, zero, t, |ls|) <==> LinkHolds(h, Head(zero, ls), l);
    if Chained(h, zero, t) {
      forall i | 0 <= i < |ls| ensures LinkedAt(h, zero, ls, i) {
        assert LinkedAt(h, zero, t, i);
      }
    }
  }

  lemma ChainedPrefix<D, P>(h: P -> D, zero: D, ls: seq<Link<D, P>>, n: nat)
    requires Chained(h, zero, ls) && n <= |ls|
    ensures Chained(h, zero, ls[..n])
  {
    forall i | 0 <= i < n ensures LinkedAt(h, zero, ls[..n], i) {
      assert LinkedAt(h, zero, ls, i);
    }
  }

  // ── Head binding ──────────────────────────────────────────────────

  /** Link `i` of `a` stands where link `FromEnd(a, b, i)` of `b` does, counted from the end. */
  function FromEnd<T>(a: seq<T>, b: seq<T>, i: nat): nat
    requires |a| <= |b|
  {
    |b| - |a| + i
  }

  /** The preimage of a link determines the hash it names as its predecessor's. */
  predicate PreFixesPrev<D(==), P(==)>(a: seq<Link<D, P>>, b: seq<Link<D, P>>) {
    forall i, j | 0 <= i < |a| && 0 <= j < |b| :: a[i].pre == b[j].pre ==> a[i].prev == b[j].prev
  }

  /** `a` is the end of `b`, and whatever `b` has before that ends on `zero`. */
  predicate IsEndOf<D(==), P(==)>(zero: D, a: seq<Link<D, P>>, b: seq<Link<D, P>>) {
    && |a| <= |b|
    && (forall i | 0 <= i < |a| :: a[i] == b[FromEnd(a, b, i)])
    && HashBefore(zero, b, |b| - |a|) == zero
  }

  predicate CollideFromEnd<D(==), P(==)>(h: P -> D, a: seq<Link<D, P>>, b: seq<Link<D, P>>) {
    |a| <= |b| && exists i | 0 <= i < |a| :: LinksCollide(h, a[i], b[FromEnd(a, b, i)])
  }

  lemma {:induction false} SameHead<D, P>(h: P -> D, zero: D, a: seq<Link<D, P>>, b: seq<Link<D, P>>)
    requires Chained(h, zero, a) && Chained(h, zero, b) && PreFixesPrev(a, b)
    requires |a| <= |b| && Head(zero, a) == Head(zero, b)
    ensures IsEndOf(zero, a, b) || CollideFromEnd(h, a, b)
    decreases |a|
  {
    if a != [] {
      var m, n := |a| - 1, |b| - 1;
      var a', b' := a[..m], b[..n];
      assert LinkedAt(h, zero, a, m) && LinkedAt(h, zero, b, n);
      assert n == FromEnd(a, b, m);
      if !LinksCollide(h, a[m], b[n]) {
        assert a[m] == b[n];
        ChainedPrefix(h, zero, a, m);
        ChainedPrefix(h, zero, b, n);
        SameHead(h, zero, a', b');
        if IsEndOf(zero, a', b') {
          forall i | 0 <= i < |a| ensures a[i] == b[FromEnd(a, b, i)] {
            if i < m { assert a'[i] == b'[FromEnd(a', b', i)]; }
          }
        } else {
          var i :| 0 <= i < m && LinksCollide(h, a'[i], b'[FromEnd(a', b', i)]);
          assert LinksCollide(h, a[i], b[FromEnd(a, b, i)]);
        }
      }
    }
  }

  // ── Tamper evidence ───────────────────────────────────────────────

  /** The list that takes the elements at the given positions, in that order. */
  function Pick<T>(ls: seq<T>, positions: seq<nat>): (picked: seq<T>)
    requires forall j | 0 <= j < |positions| :: positions[j] < |ls|
    ensures |picked| == |positions|
  {
    seq(|positions|, j requires 0 <= j < |positions| => ls[positions[j]])
  }

  /** Two links of the chain collide, or one hashes to `zero`. */
  predicate HashFails<D(==), P(==)>(h: P -> D, zero: D, ls: seq<Link<D, P>>) {
    || (exists i, j | 0 <= i < |ls| && 0 <= j < |ls| :: LinksCollide(h, ls[i], ls[j]))
    || (exists i | 0 <= i < |ls| :: ls[i].hash == zero)
  }

  predicate PresDistinct<D, P(==)>(ls: seq<Link<D, P>>) {
    forall i, j | 0 <= i < |ls| && 0 <= j < |ls| && ls[i].pre == ls[j].pre :: i == j
  }

  predicate Identity(positions: seq<nat>) {
    forall j | 0 <= j < |positions| :: positions[j] == j
  }

  lemma SameHashSamePosition<D, P>(h: P -> D, zero: D, ls: seq<Link<D, P>>, i: nat, j: nat)
    requires Chained(h, zero, ls) && PresDistinct(ls) && !HashFails(h, zero, ls)
    requires i <= |ls| && j <= |ls| && HashBefore(zero, ls, i) == HashBefore(zero, ls, j)
    ensures i == j
  {
    assert forall k | 0 <= k < |ls| :: ls[k].hash != zero;
    if i > 0 && j > 0 {
      assert LinkedAt(h, zero, ls, i - 1) && LinkedAt(h, zero, ls, j - 1);
      assert !LinksCollide(h, ls[i - 1], ls[j - 1]);
    }
  }

  /** A selection of a chain's links that is itself a chain takes the first ones in order. */
  lemma {:induction false} PickedChain<D, P>(h: P -> D, zero: D, ls: seq<Link<D, P>>, positions: seq<nat>)
    requires Chained(h, zero, ls) && PresDistinct(ls) && !HashFails(h, zero, ls)
    requires forall j | 0 <= j < |positions| :: positions[j] < |ls|
    requires Chained(h, zero, Pick(ls, positions))
    ensures Identity(positions)
    decreases |positions|
  {
    if positions != [] {
      var n := |positions| - 1;
      var picked := Pick(ls, positions);
      assert picked[..n] == Pick(ls, positions[..n]);
      ChainedPrefix(h, zero, picked, n);
      PickedChain(h, zero, ls, positions[..n]);
      assert forall j | 0 <= j < n :: positions[j] == positions[..n][j] == j;
      var p := positions[n];
      assert LinkedAt(h, zero, picked, n) && LinkedAt(h, zero, ls, p);
      assert n > 0 ==> picked[n - 1] == ls[n - 1];
      SameHashSamePosition(h, zero, ls, n, p);
    }
  }
}
