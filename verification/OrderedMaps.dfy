/** sled's tree as the daemon uses it: pairs of byte strings kept in key order. */
module OrderedMaps {
  import opened Basics

  datatype Pair = Pair(key: Bytes, value: Bytes)

  type Db = seq<Pair>

  /** How one sled write can end: done, refused before the insert, or inserted but not flushed. */
  datatype Fault = NoFault | WriteFails | FlushFails

  /** Byte-wise lexicographic order, the order sled iterates in. */
  predicate Less(a: Bytes, b: Bytes) {
    b != [] && (a == [] || a[0] < b[0] || (a[0] == b[0] && Less(a[1..], b[1..])))
  }

  ghost predicate Sorted(m: Db) {
    forall i, j | 0 <= i < j < |m| :: Less(m[i].key, m[j].key)
  }

  predicate Has(m: Db, k: Bytes) {
    exists i | 0 <= i < |m| :: m[i].key == k
  }

  function Get(m: Db, k: Bytes): (r: Option<Bytes>)
    ensures r.None? <==> !Has(m, k)
    ensures r.Some? ==> Pair(k, r.value) in m
  {
    if m == [] then None
    else if m[0].key == k then
      assert Has(m, k);
      Some(m[0].value)
    else
      var r := Get(m[1..], k);
      assert Has(m, k) <==> Has(m[1..], k) by {
        if Has(m, k) {
          var i :| 0 <= i < |m| && m[i].key == k;
          assert m[1..][i - 1].key == k;
        }
        if Has(m[1..], k) {
          var i :| 0 <= i < |m| - 1 && m[1..][i].key == k;
          assert m[i + 1].key == k;
        }
      }
      r
  }

  /** `Db::insert`: replaces the value of an existing key, keeps the order. */
  function Insert(m: Db, k: Bytes, v: Bytes): (r: Db)
    ensures |m| <= |r| <= |m| + 1
  {
    if m == [] || Less(k, m[0].key) then [Pair(k, v)] + m
    else if m[0].key == k then [Pair(k, v)] + m[1..]
    else [m[0]] + Insert(m[1..], k, v)
  }

  // ── The order ─────────────────────────────────────────────────────

  lemma {:induction false} LessTransitive(a: Bytes, b: Bytes, c: Bytes)
    requires Less(a, b) && Less(b, c)
    ensures Less(a, c)
  {
    if a != [] && a[0] == b[0] && b[0] == c[0] {
      LessTransitive(a[1..], b[1..], c[1..]);
    }
  }

  lemma {:induction false} LessTotal(a: Bytes, b: Bytes)
    ensures !Less(a, a)
    ensures a == b || Less(a, b) || Less(b, a)
  {
    if a != [] {
      LessTotal(a[1..], a[1..]);
      if b != [] && a[0] == b[0] {
        LessTotal(a[1..], b[1..]);
        assert a == [a[0]] + a[1..] && b == [b[0]] + b[1..];
      }
    }
  }

  lemma {:induction false} LessConcat(a: Bytes, b: Bytes, x: Bytes, y: Bytes)
    requires |a| == |b|
    ensures Less(a + x, b + y) <==> Less(a, b) || (a == b && Less(x, y))
  {
    if a == [] {
      assert a + x == x && b + y == y;
    } else {
      LessConcat(a[1..], b[1..], x, y);
      assert (a + x)[1..] == a[1..] + x && (b + y)[1..] == b[1..] + y;
      assert a == b <==> a[0] == b[0] && a[1..] == b[1..] by {
        assert a == [a[0]] + a[1..] && b == [b[0]] + b[1..];
      }
    }
  }

  lemma U16Order(m: u16, n: u16)
    ensures Less(U16Bytes(m), U16Bytes(n)) <==> m < n
    ensures U16Bytes(m) == U16Bytes(n) <==> m == n
  {
    U16RoundTrip(m);
    U16RoundTrip(n);
    assert U16Bytes(m)[1..] == [m % 256] && U16Bytes(n)[1..] == [n % 256];
    assert !Less([m % 256][1..], [n % 256][1..]);
  }

  lemma U32Order(m: u32, n: u32)
    ensures Less(U32Bytes(m), U32Bytes(n)) <==> m < n
    ensures U32Bytes(m) == U32Bytes(n) <==> m == n
  {
    U32RoundTrip(m);
    U32RoundTrip(n);
    LessConcat(U16Bytes(m / U16_LIMIT), U16Bytes(n / U16_LIMIT), U16Bytes(m % U16_LIMIT), U16Bytes(n % U16_LIMIT));
    U16Order(m / U16_LIMIT, n / U16_LIMIT);
    U16Order(m % U16_LIMIT, n % U16_LIMIT);
  }

  /** Iterating sled over big-endian sequence numbers visits them in numeric order. */
  lemma U64Order(m: u64, n: u64)
    ensures Less(U64Bytes(m), U64Bytes(n)) <==> m < n
    ensures U64Bytes(m) == U64Bytes(n) <==> m == n
  {
    U64RoundTrip(m);
    U64RoundTrip(n);
    LessConcat(U32Bytes(m / U32_LIMIT), U32Bytes(n / U32_LIMIT), U32Bytes(m % U32_LIMIT), U32Bytes(n % U32_LIMIT));
    U32Order(m / U32_LIMIT, n / U32_LIMIT);
    U32Order(m % U32_LIMIT, n % U32_LIMIT);
  }

  // ── Insertion ─────────────────────────────────────────────────────

  lemma {:induction false} InsertMember(m: Db, k: Bytes, v: Bytes, p: Pair)
    requires Sorted(m)
    ensures p in Insert(m, k, v) <==> p == Pair(k, v) || (p in m && p.key != k)
  {
    if m == [] {
    } else if Less(k, m[0].key) {
      AllAbove(m, k);
    } else if m[0].key == k {
      LessTotal(k, k);
      assert m == [m[0]] + m[1..];
      assert forall q | q in m[1..] :: q.key != k by {
        forall q | q in m[1..] ensures q.key != k {
          var i :| 1 <= i < |m| && m[i] == q;
          assert Less(m[0].key, m[i].key);
        }
      }
    } else {
      assert m == [m[0]] + m[1..];
      SortedTail(m);
      InsertMember(m[1..], k, v, p);
    }
  }

  lemma SortedTail(m: Db)
    requires Sorted(m) && m != []
    ensures Sorted(m[1..])
  {
  }

  lemma {:induction false} AllAbove(m: Db, k: Bytes)
    requires Sorted(m) && m != [] && Less(k, m[0].key)
    ensures forall i | 0 <= i < |m| :: Less(k, m[i].key) && m[i].key != k
  {
    LessTotal(k, k);
    forall i | 0 <= i < |m| ensures Less(k, m[i].key) && m[i].key != k {
      if i > 0 { LessTransitive(k, m[0].key, m[i].key); }
    }
  }

  lemma {:induction false} InsertSorted(m: Db, k: Bytes, v: Bytes)
    requires Sorted(m)
    ensures Sorted(Insert(m, k, v))
  {
    if m == [] {
    } else if Less(k, m[0].key) {
      AllAbove(m, k);
    } else if m[0].key == k {
      var r := Insert(m, k, v);
      assert forall i | 0 < i < |r| :: r[i] == m[i];
    } else {
      SortedTail(m);
      InsertSorted(m[1..], k, v);
      LessTotal(k, m[0].key);
      var rest := Insert(m[1..], k, v);
      forall i | 0 <= i < |rest| ensures Less(m[0].key, rest[i].key) {
        InsertMember(m[1..], k, v, rest[i]);
        if rest[i] in m[1..] {
          var j :| 1 <= j < |m| && m[j] == rest[i];
        }
      }
    }
  }

  lemma {:induction false} GetMember(m: Db, p: Pair)
    requires Sorted(m) && p in m
    ensures Get(m, p.key) == Some(p.value)
  {
    var i :| 0 <= i < |m| && m[i] == p;
    assert Has(m, p.key);
    var q := Pair(p.key, Get(m, p.key).value);
    var j :| 0 <= j < |m| && m[j] == q;
    LessTotal(p.key, p.key);
  }

  /** A read after a write: the written key answers the new value, every other key its old one. */
  lemma {:induction false} GetInsert(m: Db, k: Bytes, v: Bytes, k': Bytes)
    requires Sorted(m)
    ensures Get(Insert(m, k, v), k') == if k' == k then Some(v) else Get(m, k')
  {
    var r := Insert(m, k, v);
    InsertSorted(m, k, v);
    if k' == k {
      InsertMember(m, k, v, Pair(k, v));
      GetMember(r, Pair(k, v));
    } else if Has(r, k') {
      var p := Pair(k', Get(r, k').value);
      InsertMember(m, k, v, p);
      GetMember(m, p);
    } else if Has(m, k') {
      var p := Pair(k', Get(m, k').value);
      InsertMember(m, k, v, p);
      GetMember(r, p);
    }
  }

  /** The number of pairs grows exactly when the key is new. */
  lemma {:induction false} InsertLength(m: Db, k: Bytes, v: Bytes)
    requires Sorted(m)
    ensures |Insert(m, k, v)| == if Has(m, k) then |m| else |m| + 1
  {
    if m == [] {
    } else if Less(k, m[0].key) {
      AllAbove(m, k);
    } else if m[0].key == k {
    } else {
      SortedTail(m);
      InsertLength(m[1..], k, v);
      assert Has(m, k) <==> Has(m[1..], k) by {
        if Has(m, k) {
          var i :| 0 <= i < |m| && m[i].key == k;
          assert m[1..][i - 1].key == k;
        }
        if Has(m[1..], k) {
          var i :| 0 <= i < |m| - 1 && m[1..][i].key == k;
          assert m[i + 1].key == k;
        }
      }
    }
  }

  lemma {:induction false} InsertAtEnd(m: Db, k: Bytes, v: Bytes)
    requires forall i | 0 <= i < |m| :: Less(m[i].key, k)
    ensures Insert(m, k, v) == m + [Pair(k, v)]
  {
    if m != [] {
      LessTotal(k, k);
      if Less(k, m[0].key) { LessTransitive(k, m[0].key, k); }
      InsertAtEnd(m[1..], k, v);
    }
  }

  lemma {:induction false} InsertOverLast(m: Db, k: Bytes, v: Bytes)
    requires m != [] && m[|m| - 1].key == k
    requires forall i | 0 <= i < |m| - 1 :: Less(m[i].key, k)
    ensures Insert(m, k, v) == m[..|m| - 1] + [Pair(k, v)]
  {
    LessTotal(k, k);
    if |m| > 1 {
      if Less(k, m[0].key) { LessTransitive(k, m[0].key, k); }
      InsertOverLast(m[1..], k, v);
      assert m[..|m| - 1] == [m[0]] + m[1..][..|m| - 2];
    }
  }
}
