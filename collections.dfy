// Generic sequence operations that the storefront code reaches through the
// JavaScript library: `Array.prototype.filter`, `Array.from(new Set(xs))`
// and `Array.from(new Map(pairs).values())`.

module Optional {
  datatype Option<+T> = None | Some(value: T)
}

module Collections {
  import opened Optional

  /** The elements of `xs` that satisfy `p`, in their original order (`xs.filter(p)`). */
  function Filter<T(!new)>(xs: seq<T>, p: T -> bool): (r: seq<T>)
    ensures |r| <= |xs|
    ensures forall x :: x in r <==> x in xs && p(x)
  {
    if xs == [] then [] else (if p(xs[0]) then [xs[0]] else []) + Filter(xs[1..], p)
  }

  /** Filtering distributes over concatenation: the kept elements keep their relative order. */
  lemma {:induction false} FilterConcat<T(!new)>(a: seq<T>, b: seq<T>, p: T -> bool)
    ensures Filter(a + b, p) == Filter(a, p) + Filter(b, p)
  {
    if a == [] {
      assert a + b == b;
    } else {
      assert (a + b)[1..] == a[1..] + b;
      FilterConcat(a[1..], b, p);
    }
  }

  /** A filter that keeps every element is the identity. */
  lemma {:induction false} FilterKeepsAll<T(!new)>(xs: seq<T>, p: T -> bool)
    requires forall i :: 0 <= i < |xs| ==> p(xs[i])
    ensures Filter(xs, p) == xs
  {
    if xs != [] {
      FilterKeepsAll(xs[1..], p);
    }
  }

  /** A filter that keeps no element gives the empty sequence. */
  lemma FilterDropsAll<T(!new)>(xs: seq<T>, p: T -> bool)
    requires forall i :: 0 <= i < |xs| ==> !p(xs[i])
    ensures Filter(xs, p) == []
  {
  }

  /** The present values, in order: `xs.filter(x => x !== null && x !== undefined)`. */
  function Present<T(!new)>(xs: seq<Option<T>>): (r: seq<T>)
    ensures |r| <= |xs|
    ensures forall x :: x in r <==> Some(x) in xs
  {
    if xs == [] then []
    else
      assert forall x :: Some(x) in xs <==> Some(x) == xs[0] || Some(x) in xs[1..] by {
        assert xs == [xs[0]] + xs[1..];
      }
      (if xs[0].Some? then [xs[0].value] else []) + Present(xs[1..])
  }

  /** Dropping the missing values keeps the present ones in their order. */
  lemma {:induction false} PresentConcat<T(!new)>(a: seq<Option<T>>, b: seq<Option<T>>)
    ensures Present(a + b) == Present(a) + Present(b)
  {
    if a == [] {
      assert a + b == b;
    } else {
      assert (a + b)[1..] == a[1..] + b;
      PresentConcat(a[1..], b);
    }
  }

  predicate NoDuplicates<T(==,!new)>(xs: seq<T>) {
    forall i, j :: 0 <= i < j < |xs| ==> xs[i] != xs[j]
  }

  /** The position of the first occurrence of `x` in `xs`. */
  function FirstIndex<T(==,!new)>(xs: seq<T>, x: T): (k: nat)
    requires x in xs
    ensures k < |xs| && xs[k] == x
    ensures forall j :: 0 <= j < k ==> xs[j] != x
  {
    if xs[0] == x then 0 else 1 + FirstIndex(xs[1..], x)
  }

  /**
   * `Array.from(new Set(xs))`: a Set remembers insertion order and ignores
   * an element it already holds, so the result lists each element once, at
   * the place of its first occurrence.
   */
  function Distinct<T(==,!new)>(xs: seq<T>): (r: seq<T>)
    ensures NoDuplicates(r)
    ensures forall x :: x in r <==> x in xs
    ensures |r| <= |xs|
  {
    if xs == [] then []
    else
      var d := Distinct(xs[..|xs| - 1]);
      var x := xs[|xs| - 1];
      assert forall y :: y in xs <==> y in xs[..|xs| - 1] || y == x by {
        assert xs == xs[..|xs| - 1] + [x];
      }
      if x in d then d else d + [x]
  }

  lemma DistinctSnoc<T(!new)>(xs: seq<T>, x: T)
    ensures Distinct(xs + [x]) == if x in Distinct(xs) then Distinct(xs) else Distinct(xs) + [x]
  {
    assert (xs + [x])[..|xs + [x]| - 1] == xs;
  }

  /** A sequence that is already duplicate-free passes through a Set unchanged. */
  lemma {:induction false} DistinctOfNoDuplicates<T(!new)>(xs: seq<T>)
    requires NoDuplicates(xs)
    ensures Distinct(xs) == xs
  {
    if xs != [] {
      var p := xs[..|xs| - 1];
      assert NoDuplicates(p);
      DistinctOfNoDuplicates(p);
      assert xs[|xs| - 1] !in p;
      assert p + [xs[|xs| - 1]] == xs;
    }
  }

  /** Adding one element to a duplicate-free list through a Set appends it only when absent. */
  lemma DistinctAddOne<T(!new)>(xs: seq<T>, x: T)
    requires NoDuplicates(xs)
    ensures Distinct(xs + [x]) == if x in xs then xs else xs + [x]
  {
    DistinctSnoc(xs, x);
    DistinctOfNoDuplicates(xs);
  }

  /** De-duplicating a suffix first does not change the de-duplicated whole. */
  lemma {:induction false} DistinctAbsorbsInner<T(!new)>(a: seq<T>, b: seq<T>)
    ensures Distinct(a + Distinct(b)) == Distinct(a + b)
  {
    if b == [] {
      assert a + b == a;
      assert a + Distinct(b) == a;
    } else {
      var b', x := b[..|b| - 1], b[|b| - 1];
      assert b == b' + [x];
      DistinctAbsorbsInner(a, b');
      assert a + b == (a + b') + [x];
      DistinctSnoc(a + b', x);
      DistinctSnoc(b', x);
      if x in Distinct(b') {
        assert Distinct(b) == Distinct(b');
      } else {
        assert Distinct(b) == Distinct(b') + [x];
        assert a + Distinct(b) == (a + Distinct(b')) + [x];
        DistinctSnoc(a + Distinct(b'), x);
      }
    }
  }

  /** A Set built from `a` then `b` lists `a`'s distinct elements first. */
  lemma {:induction false} DistinctKeepsPrefix<T(!new)>(a: seq<T>, b: seq<T>)
    ensures |Distinct(a)| <= |Distinct(a + b)|
    ensures Distinct(a + b)[..|Distinct(a)|] == Distinct(a)
  {
    if b == [] {
      assert a + b == a;
    } else {
      var b', x := b[..|b| - 1], b[|b| - 1];
      assert a + b == (a + b') + [x];
      DistinctKeepsPrefix(a, b');
      DistinctSnoc(a + b', x);
    }
  }

  lemma FirstIndexInPrefix<T(!new)>(xs: seq<T>, x: T, n: nat)
    requires n <= |xs| && x in xs[..n]
    ensures FirstIndex(xs, x) == FirstIndex(xs[..n], x)
  {
    var k := FirstIndex(xs[..n], x);
    assert xs[k] == x;
    assert forall j :: 0 <= j < k ==> xs[j] == xs[..n][j] != x;
  }

  /** The Set keeps first-occurrence order: earlier in the result means earlier first occurrence. */
  lemma {:induction false} DistinctFirstOccurrenceOrder<T(!new)>(xs: seq<T>, i: nat, j: nat)
    requires i < j < |Distinct(xs)|
    ensures FirstIndex(xs, Distinct(xs)[i]) < FirstIndex(xs, Distinct(xs)[j])
  {
    var n := |xs| - 1;
    var p, x := xs[..n], xs[n];
    var d := Distinct(p);
    assert xs == p + [x];
    var yi, yj := Distinct(xs)[i], Distinct(xs)[j];
    if x in d || j < |d| {
      assert Distinct(xs)[..|d|] == d;
      assert yi == d[i] && yj == d[j];
      assert yi in p && yj in p;
      DistinctFirstOccurrenceOrder(p, i, j);
      FirstIndexInPrefix(xs, yi, n);
      FirstIndexInPrefix(xs, yj, n);
    } else {
      assert yj == x && x !in p;
      assert yi == d[i] && yi in p;
      FirstIndexInPrefix(xs, yi, n);
      assert forall k :: 0 <= k < n ==> xs[k] == p[k] != x;
      assert FirstIndex(xs, x) == n;
    }
  }

  /** `xs.map(key)`. */
  function MapSeq<T, K>(xs: seq<T>, f: T -> K): (r: seq<K>)
    ensures |r| == |xs|
    ensures forall i :: 0 <= i < |xs| ==> r[i] == f(xs[i])
  {
    seq(|xs|, i requires 0 <= i < |xs| => f(xs[i]))
  }

  lemma MapSeqSnoc<T, K>(xs: seq<T>, f: T -> K, i: nat)
    requires i < |xs|
    ensures MapSeq(xs[..i + 1], f) == MapSeq(xs[..i], f) + [f(xs[i])]
  {
  }

  /** The first position in `acc` whose key is `k`, or `|acc|` when there is none. */
  function IndexOfKey<T(!new), K(==,!new)>(acc: seq<T>, key: T -> K, k: K): (i: nat)
    ensures i <= |acc|
    ensures i < |acc| ==> key(acc[i]) == k
    ensures forall j :: 0 <= j < i ==> key(acc[j]) != k
  {
    if acc == [] then 0
    else if key(acc[0]) == k then 0
    else 1 + IndexOfKey(acc[1..], key, k)
  }

  /** `IndexOfKey` is the one position meeting its two defining conditions. */
  lemma IndexOfKeyUnique<T(!new), K(!new)>(acc: seq<T>, key: T -> K, k: K, n: nat)
    requires n <= |acc|
    requires n < |acc| ==> key(acc[n]) == k
    requires forall j :: 0 <= j < n ==> key(acc[j]) != k
    ensures IndexOfKey(acc, key, k) == n
  {
    var m := IndexOfKey(acc, key, k);
    assert !(m < n) && !(n < m);
  }

  /** One `Map.prototype.set`: an existing key keeps its place and takes the new value. */
  function MapInsert<T(!new), K(==,!new)>(acc: seq<T>, key: T -> K, x: T): seq<T>
  {
    var i := IndexOfKey(acc, key, key(x));
    if i < |acc| then acc[i := x] else acc + [x]
  }

  /**
   * `Array.from(new Map(xs.map(x => [key(x), x])).values())`: one element per
   * key, at the key's first position, holding the key's last element.
   */
  function DedupeByKey<T(!new), K(==,!new)>(xs: seq<T>, key: T -> K): (r: seq<T>)
    ensures |r| <= |xs|
    ensures forall i :: 0 <= i < |r| ==> r[i] in xs
  {
    if xs == [] then []
    else
      var d := DedupeByKey(xs[..|xs| - 1], key);
      var r := MapInsert(d, key, xs[|xs| - 1]);
      assert forall i :: 0 <= i < |r| ==> r[i] in xs by {
        forall i | 0 <= i < |r| ensures r[i] in xs {
          if r[i] != xs[|xs| - 1] {
            assert r[i] in d;
            var k :| 0 <= k < |d| && d[k] == r[i];
            assert d[k] in xs[..|xs| - 1];
          }
        }
      }
      r
  }

  lemma DedupeByKeySnoc<T(!new), K(!new)>(xs: seq<T>, x: T, key: T -> K)
    ensures DedupeByKey(xs + [x], key) == MapInsert(DedupeByKey(xs, key), key, x)
  {
    assert (xs + [x])[..|xs + [x]| - 1] == xs;
  }

  /** The key sequence of the Map-based dedupe is the Set-based dedupe of the keys. */
  lemma {:induction false} DedupeByKeyKeys<T(!new), K(!new)>(xs: seq<T>, key: T -> K)
    ensures MapSeq(DedupeByKey(xs, key), key) == Distinct(MapSeq(xs, key))
  {
    if xs != [] {
      var p, x := xs[..|xs| - 1], xs[|xs| - 1];
      assert xs == p + [x];
      DedupeByKeyKeys(p, key);
      assert MapSeq(xs, key) == MapSeq(p, key) + [key(x)];
      DistinctSnoc(MapSeq(p, key), key(x));
      MapInsertKeys(DedupeByKey(p, key), key, x);
    }
  }

  /** The keys after one `set`: unchanged when the key was there, one more at the end otherwise. */
  lemma MapInsertKeys<T(!new), K(!new)>(d: seq<T>, key: T -> K, x: T)
    ensures MapSeq(MapInsert(d, key, x), key)
         == if key(x) in MapSeq(d, key) then MapSeq(d, key) else MapSeq(d, key) + [key(x)]
  {
    var dk := MapSeq(d, key);
    var i := IndexOfKey(d, key, key(x));
    if i < |d| {
      assert dk[i] == key(x);
      assert MapSeq(d[i := x], key) == dk;
    } else {
      assert key(x) !in dk by {
        forall k | 0 <= k < |dk| ensures dk[k] != key(x) {
          assert dk[k] == key(d[k]);
        }
      }
      assert MapSeq(d + [x], key) == dk + [key(x)];
    }
  }

  /** The dedupe keeps exactly one element per key. */
  lemma DedupeByKeyUnique<T(!new), K(!new)>(xs: seq<T>, key: T -> K)
    ensures NoDuplicates(MapSeq(DedupeByKey(xs, key), key))
  {
    DedupeByKeyKeys(xs, key);
  }

  /** The last element of `xs` whose key is `k`. */
  function LastWithKey<T(!new), K(==,!new)>(xs: seq<T>, key: T -> K, k: K): (x: T)
    requires exists i :: 0 <= i < |xs| && key(xs[i]) == k
    ensures x in xs && key(x) == k
  {
    var n := |xs| - 1;
    if key(xs[n]) == k then xs[n]
    else
      assert exists i :: 0 <= i < n && key(xs[..n][i]) == k by {
        var i :| 0 <= i < |xs| && key(xs[i]) == k;
        assert i < n && xs[..n][i] == xs[i];
      }
      LastWithKey(xs[..n], key, k)
  }

  /** For every key the Map keeps the last element carrying it ("last value wins"). */
  lemma {:induction false} DedupeByKeyLastWins<T(!new), K(!new)>(xs: seq<T>, key: T -> K, i: nat)
    requires i < |DedupeByKey(xs, key)|
    ensures exists j :: 0 <= j < |xs| && key(xs[j]) == key(DedupeByKey(xs, key)[i])
    ensures DedupeByKey(xs, key)[i] == LastWithKey(xs, key, key(DedupeByKey(xs, key)[i]))
  {
    var r := DedupeByKey(xs, key);
    var n := |xs| - 1;
    var p, x := xs[..n], xs[n];
    assert xs == p + [x];
    var d := DedupeByKey(p, key);
    var m := IndexOfKey(d, key, key(x));
    assert key(xs[n]) == key(x);
    if r[i] == x {
      assert key(xs[n]) == key(r[i]);
    } else {
      // r[i] came through unchanged from d and its key is not x's key
      assert i < |d| && r[i] == d[i];
      assert key(d[i]) != key(x) by {
        DedupeByKeyUnique(p, key);
        var ks := MapSeq(d, key);
        if m < i {
          assert ks[m] == key(x) && ks[m] != ks[i];
        }
      }
      DedupeByKeyLastWins(p, key, i);
      var j :| 0 <= j < |p| && key(p[j]) == key(d[i]);
      assert xs[j] == p[j];
    }
  }
}
