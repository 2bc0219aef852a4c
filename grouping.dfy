/** Grouping a list by a key the way the dashboards' `reduce` calls do: into a
    plain object whose keys come out in order of first insertion, one bucket
    per key. `Keys` is that key order, `Select` one bucket, `Sum` a total over
    a bucket and `GroupSums` the totals of all buckets added up. */
module Grouping {

  predicate Distinct<K(==)>(ks: seq<K>)
  {
    forall i, j :: 0 <= i < j < |ks| ==> ks[i] != ks[j]
  }

  /** The distinct keys of `xs`, in the order in which they first occur. */
  function Keys<T, K(==)>(xs: seq<T>, key: T -> K): seq<K>
  {
    if xs == [] then []
    else
      var ks := Keys(xs[..|xs| - 1], key);
      var k := key(xs[|xs| - 1]);
      if k in ks then ks else ks + [k]
  }

  /** The entries of `xs` whose key is `k`, in their original order. */
  function Select<T, K(==)>(xs: seq<T>, key: T -> K, k: K): (r: seq<T>)
    ensures |r| <= |xs|
  {
    if xs == [] then []
    else
      var init := Select(xs[..|xs| - 1], key, k);
      if key(xs[|xs| - 1]) == k then init + [xs[|xs| - 1]] else init
  }

  /** The sum of `f` over `xs`. */
  function Sum<T>(xs: seq<T>, f: T -> int): int
  {
    if xs == [] then 0 else Sum(xs[..|xs| - 1], f) + f(xs[|xs| - 1])
  }

  /** The weight that makes `Sum` a count. */
  function One<T>(x: T): int
  {
    1
  }

  /** The bucket totals of `f`, one bucket per key of `ks`, added up. */
  function GroupSums<T, K(==)>(ks: seq<K>, xs: seq<T>, key: T -> K, f: T -> int): int
  {
    if ks == [] then 0
    else GroupSums(ks[..|ks| - 1], xs, key, f) + Sum(Select(xs, key, ks[|ks| - 1]), f)
  }

  // ---------- One step of the accumulating loop ----------

  /** A loop's prefix grows by the entry it has just read. */
  lemma PrefixSnoc<T>(xs: seq<T>, i: nat)
    requires i < |xs|
    ensures xs[..i + 1] == xs[..i] + [xs[i]]
  {
  }

  /** A non-empty list is its front followed by its last entry. */
  lemma LastSplit<T>(xs: seq<T>)
    requires xs != []
    ensures xs == xs[..|xs| - 1] + [xs[|xs| - 1]]
  {
  }

  lemma AppendSnoc<T>(xs: seq<T>, ys: seq<T>, y: T)
    ensures xs + (ys + [y]) == (xs + ys) + [y]
  {
  }

  lemma KeysSnoc<T, K>(xs: seq<T>, x: T, key: T -> K)
    ensures Keys(xs + [x], key) == if key(x) in Keys(xs, key) then Keys(xs, key) else Keys(xs, key) + [key(x)]
  {
    assert (xs + [x])[..|xs|] == xs;
  }

  lemma SelectSnocAt<T, K>(xs: seq<T>, x: T, key: T -> K, k: K)
    ensures Select(xs + [x], key, k) == if key(x) == k then Select(xs, key, k) + [x] else Select(xs, key, k)
  {
    assert (xs + [x])[..|xs|] == xs;
  }

  lemma SelectSnoc<T, K>(xs: seq<T>, x: T, key: T -> K)
    ensures forall k :: Select(xs + [x], key, k) == if key(x) == k then Select(xs, key, k) + [x] else Select(xs, key, k)
  {
    forall k {
      SelectSnocAt(xs, x, key, k);
    }
  }

  lemma SumSnoc<T>(xs: seq<T>, x: T, f: T -> int)
    ensures Sum(xs + [x], f) == Sum(xs, f) + f(x)
  {
    assert (xs + [x])[..|xs|] == xs;
  }

  // ---------- What the grouping means ----------

  /** The keys are distinct. */
  lemma {:induction false} KeysDistinct<T, K>(xs: seq<T>, key: T -> K)
    ensures Distinct(Keys(xs, key))
  {
    if xs != [] {
      KeysDistinct(xs[..|xs| - 1], key);
    }
  }

  /** A key is listed exactly when some entry has it. */
  lemma {:induction false} KeysMembers<T, K>(xs: seq<T>, key: T -> K, k: K)
    ensures k in Keys(xs, key) <==> exists i :: 0 <= i < |xs| && key(xs[i]) == k
  {
    if xs != [] {
      var init := xs[..|xs| - 1];
      KeysMembers(init, key, k);
      if k in Keys(init, key) {
        var i :| 0 <= i < |init| && key(init[i]) == k;
        assert key(xs[i]) == k;
      }
      if exists i :: 0 <= i < |xs| && key(xs[i]) == k {
        var i :| 0 <= i < |xs| && key(xs[i]) == k;
        if i < |init| {
          assert key(init[i]) == k;
        }
      }
    }
  }

  /** An entry lands in a bucket exactly when its key is that bucket's key. */
  lemma {:induction false} SelectMembers<T, K>(xs: seq<T>, key: T -> K, k: K, x: T)
    ensures x in Select(xs, key, k) <==> x in xs && key(x) == k
  {
    if xs != [] {
      var init := xs[..|xs| - 1];
      SelectMembers(init, key, k, x);
      LastSplit(xs);
    }
  }

  /** A key no entry has gets an empty bucket. */
  lemma {:induction false} SelectAbsent<T, K>(xs: seq<T>, key: T -> K, k: K)
    requires k !in Keys(xs, key)
    ensures Select(xs, key, k) == []
  {
    if xs != [] {
      var init := xs[..|xs| - 1];
      var x := xs[|xs| - 1];
      LastSplit(xs);
      KeysSnoc(init, x, key);
      SelectAbsent(init, key, k);
      SelectSnoc(init, x, key);
    }
  }

  /** Selecting from a concatenation selects from each part. */
  lemma {:induction false} SelectAppend<T, K>(xs: seq<T>, ys: seq<T>, key: T -> K, k: K)
    ensures Select(xs + ys, key, k) == Select(xs, key, k) + Select(ys, key, k)
  {
    if ys == [] {
      assert xs + ys == xs;
    } else {
      var init := ys[..|ys| - 1];
      var y := ys[|ys| - 1];
      LastSplit(ys);
      AppendSnoc(xs, init, y);
      var a, b := Select(xs, key, k), Select(init, key, k);
      assert Select(xs + init, key, k) == a + b by {
        SelectAppend(xs, init, key, k);
      }
      assert Select(xs + ys, key, k) == if key(y) == k then (a + b) + [y] else a + b by {
        SelectSnocAt(xs + init, y, key, k);
      }
      assert Select(ys, key, k) == if key(y) == k then b + [y] else b by {
        SelectSnocAt(init, y, key, k);
      }
      AppendSnoc(a, b, y);
    }
  }

  /** Counting with weight one counts the entries. */
  lemma {:induction false} SumOne<T>(xs: seq<T>)
    ensures Sum(xs, One) == |xs|
  {
    if xs != [] {
      SumOne(xs[..|xs| - 1]);
    }
  }

  /** One more entry adds its weight to the one bucket it belongs to. */
  lemma {:induction false} GroupSumsSnoc<T, K>(ks: seq<K>, xs: seq<T>, x: T, key: T -> K, f: T -> int)
    requires Distinct(ks)
    ensures GroupSums(ks, xs + [x], key, f) == GroupSums(ks, xs, key, f) + (if key(x) in ks then f(x) else 0)
  {
    if ks != [] {
      var init := ks[..|ks| - 1];
      var k := ks[|ks| - 1];
      LastSplit(ks);
      GroupSumsSnoc(init, xs, x, key, f);
      SelectSnoc(xs, x, key);
      if key(x) == k {
        SumSnoc(Select(xs, key, k), x, f);
      }
    }
  }

  /** The buckets partition the list: their totals add up to the total of
      the whole list, for any weight. */
  lemma {:induction false} Partition<T, K>(xs: seq<T>, key: T -> K, f: T -> int)
    ensures GroupSums(Keys(xs, key), xs, key, f) == Sum(xs, f)
  {
    if xs != [] {
      var init := xs[..|xs| - 1];
      var x := xs[|xs| - 1];
      LastSplit(xs);
      var ks := Keys(init, key);
      KeysDistinct(init, key);
      assert Sum(xs, f) == Sum(init, f) + f(x) by {
        SumSnoc(init, x, f);
      }
      assert GroupSums(ks, xs, key, f) == GroupSums(ks, init, key, f) + (if key(x) in ks then f(x) else 0) by {
        GroupSumsSnoc(ks, init, x, key, f);
      }
      Partition(init, key, f);
      if key(x) in ks {
        assert Keys(xs, key) == ks by {
          KeysSnoc(init, x, key);
        }
      } else {
        var ks' := ks + [key(x)];
        assert Keys(xs, key) == ks' by {
          KeysSnoc(init, x, key);
        }
        assert Select(xs, key, key(x)) == [x] by {
          SelectAbsent(init, key, key(x));
          SelectSnocAt(init, x, key, key(x));
        }
        assert Sum([x], f) == f(x) by {
          SumSnoc([], x, f);
          assert [] + [x] == [x];
        }
        assert GroupSums(ks', xs, key, f) == GroupSums(ks, xs, key, f) + Sum([x], f) by {
          assert ks'[..|ks'| - 1] == ks;
        }
      }
    }
  }

  /** In particular the bucket sizes add up to the length of the list. */
  lemma CountsAddUp<T, K>(xs: seq<T>, key: T -> K)
    ensures GroupSums(Keys(xs, key), xs, key, One) == |xs|
  {
    Partition(xs, key, One);
    SumOne(xs);
  }

  /** A distinct list has as many elements as its set. */
  lemma {:induction false} DistinctCardinality<K>(ks: seq<K>)
    requires Distinct(ks)
    ensures |set k | k in ks| == |ks|
  {
    if ks != [] {
      var init := ks[..|ks| - 1];
      var k := ks[|ks| - 1];
      LastSplit(ks);
      DistinctCardinality(init);
      assert (set x | x in ks) == (set x | x in init) + {k};
      assert k !in (set x | x in init);
    }
  }

  /** A sum of values between 0 and `m` lies between 0 and `m` times the length. */
  lemma {:induction false} SumBounds<T>(xs: seq<T>, f: T -> int, m: nat)
    requires forall i :: 0 <= i < |xs| ==> 0 <= f(xs[i]) <= m
    ensures 0 <= Sum(xs, f) <= m * |xs|
  {
    if xs != [] {
      SumBounds(xs[..|xs| - 1], f, m);
      assert m * |xs| == m * (|xs| - 1) + m;
    }
  }

  /** A sum of equal values is that value times the length. */
  lemma {:induction false} SumConstant<T>(xs: seq<T>, f: T -> int, v: int)
    requires forall i :: 0 <= i < |xs| ==> f(xs[i]) == v
    ensures Sum(xs, f) == v * |xs|
  {
    if xs != [] {
      SumConstant(xs[..|xs| - 1], f, v);
      assert v * |xs| == v * (|xs| - 1) + v;
    }
  }
}
