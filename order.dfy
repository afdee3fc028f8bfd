/** Python's `sorted(xs, key=...)` (a stable sort on tuple-like keys) and the
    "dict of lists" grouping the scraper writes by hand, as generic functions. */
module Order {

  /** Lexicographic order on integer keys, the way Python compares tuples, and strings by
      code point: a proper prefix comes first. */
  predicate KeyLe(a: seq<int>, b: seq<int>)
    decreases |a|
  {
    a == [] || (b != [] && (a[0] < b[0] || (a[0] == b[0] && KeyLe(a[1..], b[1..]))))
  }

  lemma {:induction false} KeyLeRefl(a: seq<int>)
    ensures KeyLe(a, a)
    decreases |a|
  {
    if a != [] { KeyLeRefl(a[1..]); }
  }

  lemma {:induction false} KeyLeTotal(a: seq<int>, b: seq<int>)
    ensures KeyLe(a, b) || KeyLe(b, a)
    decreases |a|
  {
    if a != [] && b != [] && a[0] == b[0] { KeyLeTotal(a[1..], b[1..]); }
  }

  lemma {:induction false} KeyLeAntisymmetric(a: seq<int>, b: seq<int>)
    requires KeyLe(a, b) && KeyLe(b, a)
    ensures a == b
    decreases |a|
  {
    if a != [] && b != [] {
      KeyLeAntisymmetric(a[1..], b[1..]);
      assert a == [a[0]] + a[1..] && b == [b[0]] + b[1..];
    }
  }

  lemma {:induction false} KeyLeTransitive(a: seq<int>, b: seq<int>, c: seq<int>)
    requires KeyLe(a, b) && KeyLe(b, c)
    ensures KeyLe(a, c)
    decreases |a|
  {
    if a != [] && b != [] && c != [] && a[0] == b[0] == c[0] {
      KeyLeTransitive(a[1..], b[1..], c[1..]);
    }
  }

  /** Every element's key is no greater than its successor's. */
  predicate Sorted<T>(s: seq<T>, key: T -> seq<int>) {
    forall i :: 0 < i < |s| ==> KeyLe(key(s[i - 1]), key(s[i]))
  }

  /** Places `x` before the first element of `s` whose key is not smaller than its own. */
  function Insert<T>(x: T, s: seq<T>, key: T -> seq<int>): seq<T>
    decreases |s|
  {
    if s == [] then [x]
    else if KeyLe(key(x), key(s[0])) then [x] + s
    else [s[0]] + Insert(x, s[1..], key)
  }

  /** Insertion adds exactly `x`, starts with `x` or with the old first element, and keeps
      a sorted list sorted. */
  lemma {:induction false} InsertFacts<T>(x: T, s: seq<T>, key: T -> seq<int>)
    ensures var r := Insert(x, s, key);
            multiset(r) == multiset(s) + multiset{x} && |r| == |s| + 1
            && (r[0] == x || (s != [] && r[0] == s[0]))
            && (Sorted(s, key) ==> Sorted(r, key))
    decreases |s|
  {
    if s != [] && !KeyLe(key(x), key(s[0])) {
      var rest := Insert(x, s[1..], key);
      InsertFacts(x, s[1..], key);
      KeyLeTotal(key(x), key(s[0]));
      assert s == [s[0]] + s[1..];
      if Sorted(s, key) {
        SortedTail(s, key);
        var r := [s[0]] + rest;
        forall i | 0 < i < |r| ensures KeyLe(key(r[i - 1]), key(r[i])) {
          if i > 1 { assert r[i - 1] == rest[i - 2] && r[i] == rest[i - 1]; }
        }
      }
    }
  }

  /** `sorted(s, key=key)`, as an insertion sort. */
  function SortBy<T>(s: seq<T>, key: T -> seq<int>): seq<T>
    decreases |s|
  {
    if s == [] then [] else Insert(s[0], SortBy(s[1..], key), key)
  }

  /** The sort is a permutation and its result is sorted. */
  lemma {:induction false} SortByFacts<T>(s: seq<T>, key: T -> seq<int>)
    ensures var r := SortBy(s, key);
            multiset(r) == multiset(s) && |r| == |s| && Sorted(r, key)
    decreases |s|
  {
    if s != [] {
      assert s == [s[0]] + s[1..];
      SortByFacts(s[1..], key);
      InsertFacts(s[0], SortBy(s[1..], key), key);
    }
  }

  /** The elements of `s` whose key is `k`, in their order in `s`. */
  function Having<T, K(==)>(s: seq<T>, key: T -> K, k: K): seq<T>
    decreases |s|
  {
    if s == [] then [] else (if key(s[0]) == k then [s[0]] else []) + Having(s[1..], key, k)
  }

  lemma {:induction false} HavingConcat<T, K>(a: seq<T>, b: seq<T>, key: T -> K, k: K)
    ensures Having(a + b, key, k) == Having(a, key, k) + Having(b, key, k)
    decreases |a|
  {
    if a != [] {
      assert (a + b)[0] == a[0] && (a + b)[1..] == a[1..] + b;
      HavingConcat(a[1..], b, key, k);
    } else {
      assert a + b == b;
    }
  }

  /** What `Having` keeps: exactly the elements with key `k`. */
  lemma {:induction false} HavingMembers<T, K>(s: seq<T>, key: T -> K, k: K)
    ensures forall x :: x in Having(s, key, k) <==> x in s && key(x) == k
    decreases |s|
  {
    if s != [] {
      HavingMembers(s[1..], key, k);
      assert s == [s[0]] + s[1..];
    }
  }

  lemma SortedTail<T>(s: seq<T>, key: T -> seq<int>)
    requires s != [] && Sorted(s, key)
    ensures Sorted(s[1..], key)
  {
    forall i | 0 < i < |s| - 1 ensures KeyLe(key(s[1..][i - 1]), key(s[1..][i])) {
      assert s[1..][i - 1] == s[i] && s[1..][i] == s[i + 1];
    }
  }

  /** Inserting `x` puts it before every element of its key already there. */
  lemma {:induction false} InsertHaving<T>(x: T, s: seq<T>, key: T -> seq<int>, k: seq<int>)
    requires Sorted(s, key)
    ensures Having(Insert(x, s, key), key, k) == (if key(x) == k then [x] else []) + Having(s, key, k)
    decreases |s|
  {
    var mine: seq<T> := if key(x) == k then [x] else [];
    if s == [] {
      assert Insert(x, s, key) == [x];
      assert Having([x], key, k) == mine + [];
    } else if KeyLe(key(x), key(s[0])) {
      assert Insert(x, s, key) == [x] + s;
      HavingConcat([x], s, key, k);
      assert Having([x], key, k) == mine + [];
    } else {
      var rest := Insert(x, s[1..], key);
      assert Insert(x, s, key) == [s[0]] + rest;
      SortedTail(s, key);
      InsertHaving(x, s[1..], key, k);
      HavingConcat([s[0]], rest, key, k);
      HavingConcat([s[0]], s[1..], key, k);
      assert s == [s[0]] + s[1..];
      var first := Having([s[0]], key, k);
      assert first == (if key(s[0]) == k then [s[0]] else []) + [];
      if key(x) == k {
        KeyLeRefl(key(x));
        assert key(s[0]) != k;
        assert first == [];
      } else {
        assert mine == [];
      }
    }
  }

  /** The sort is stable: the elements sharing one key keep their relative order. */
  lemma {:induction false} SortStable<T>(s: seq<T>, key: T -> seq<int>, k: seq<int>)
    ensures Having(SortBy(s, key), key, k) == Having(s, key, k)
    decreases |s|
  {
    if s != [] {
      SortStable(s[1..], key, k);
      SortByFacts(s[1..], key);
      InsertHaving(s[0], SortBy(s[1..], key), key, k);
      assert s == [s[0]] + s[1..];
      HavingConcat([s[0]], s[1..], key, k);
    }
  }

  // ---------------------------------------------------------------- repetitions

  /** A list without repetitions. */
  predicate NoDup<T(==)>(xs: seq<T>) {
    forall i, j :: 0 <= i < j < |xs| ==> xs[i] != xs[j]
  }

  /** A list without repetitions is one in which every element counts once. */
  lemma {:induction false} NoDupCounts<T>(a: seq<T>)
    ensures NoDup(a) <==> forall x :: multiset(a)[x] <= 1
    decreases |a|
  {
    if a != [] {
      var rest := a[1..];
      NoDupCounts(rest);
      assert a == [a[0]] + rest;
      assert multiset(a) == multiset{a[0]} + multiset(rest);
      if NoDup(a) {
        assert a[0] !in rest by {
          forall k | 0 <= k < |rest| ensures rest[k] != a[0] { assert rest[k] == a[k + 1]; }
        }
        assert NoDup(rest) by {
          forall i, j | 0 <= i < j < |rest| ensures rest[i] != rest[j] { assert rest[i] == a[i + 1] && rest[j] == a[j + 1]; }
        }
      }
      if forall x :: multiset(a)[x] <= 1 {
        assert multiset(rest)[a[0]] == 0;
        assert forall x :: multiset(rest)[x] <= multiset(a)[x];
        forall i, j | 0 <= i < j < |a| ensures a[i] != a[j] {
          if i == 0 { assert a[j] in rest by { assert a[j] == rest[j - 1]; } }
          else { assert a[i] == rest[i - 1] && a[j] == rest[j - 1]; }
        }
      }
    }
  }

  /** Reordering a list without repetitions leaves none. */
  lemma NoDupPermutation<T>(a: seq<T>, b: seq<T>)
    requires NoDup(a) && multiset(a) == multiset(b)
    ensures NoDup(b)
  {
    NoDupCounts(a);
    NoDupCounts(b);
  }

  // ---------------------------------------------------------------- grouping

  /** The keys of a dict held as insertion-ordered (key, value) pairs, in that order. */
  function KeyList<K, V>(d: seq<(K, V)>): (r: seq<K>)
    ensures |r| == |d| && forall i :: 0 <= i < |d| ==> r[i] == d[i].0
  {
    seq(|d|, i requires 0 <= i < |d| => d[i].0)
  }

  /** A list-valued dict as insertion-ordered (key, list) pairs. */
  type Buckets<K, T> = seq<(K, seq<T>)>

  predicate DistinctKeys<K(==), T>(b: Buckets<K, T>) {
    forall i, j :: 0 <= i < j < |b| ==> b[i].0 != b[j].0
  }

  /** One step of `if k not in d: d[k] = []` followed by `d[k].append(x)`: the list under
      `k` grows by `x`, a new key goes last, and every other entry is kept. */
  function AddTo<K(==), T>(b: Buckets<K, T>, k: K, x: T): (r: Buckets<K, T>)
    ensures |r| == |b| || |r| == |b| + 1
    ensures forall i :: 0 <= i < |r| ==> r[i].0 == (if i < |b| then b[i].0 else k)
    ensures |r| == |b| + 1 <==> forall i :: 0 <= i < |b| ==> b[i].0 != k
    ensures |r| == |b| + 1 ==> r[|b|].1 == [x]
    decreases |b|
  {
    if b == [] then [(k, [x])]
    else if b[0].0 == k then [(k, b[0].1 + [x])] + b[1..]
    else [b[0]] + AddTo(b[1..], k, x)
  }

  /** On a dict (distinct keys) only the list under `k` changes, and keys stay distinct. */
  lemma {:induction false} AddToDict<K, T>(b: Buckets<K, T>, k: K, x: T)
    requires DistinctKeys(b)
    ensures DistinctKeys(AddTo(b, k, x))
    ensures forall i :: 0 <= i < |b| ==>
              AddTo(b, k, x)[i].1 == (if b[i].0 == k then b[i].1 + [x] else b[i].1)
    decreases |b|
  {
    if b != [] && b[0].0 != k {
      assert DistinctKeys(b[1..]) by {
        forall i, j | 0 <= i < j < |b| - 1 ensures b[1..][i].0 != b[1..][j].0 {
          assert b[1..][i] == b[i + 1] && b[1..][j] == b[j + 1];
        }
      }
      AddToDict(b[1..], k, x);
      var r := AddTo(b, k, x);
      assert r == [b[0]] + AddTo(b[1..], k, x);
      forall i | 0 <= i < |b| ensures r[i].1 == (if b[i].0 == k then b[i].1 + [x] else b[i].1) {
        if i > 0 { assert r[i] == AddTo(b[1..], k, x)[i - 1] && b[i] == b[1..][i - 1]; }
      }
    }
  }

  /** `AddTo` at the first bucket with the key: that bucket grows by `x`, or, when there is
      none, a new bucket goes last. */
  lemma {:induction false} AddToPlace<K, T>(b: Buckets<K, T>, k: K, x: T, i: nat)
    requires i <= |b| && (i < |b| ==> b[i].0 == k)
    requires forall j :: 0 <= j < i ==> b[j].0 != k
    ensures AddTo(b, k, x) == if i == |b| then b + [(k, [x])] else b[i := (k, b[i].1 + [x])]
    decreases |b|
  {
    if b != [] {
      if b[0].0 == k {
        HeadUpdate(b, (k, b[0].1 + [x]));
      } else {
        var t := AddTo(b[1..], k, x);
        assert AddTo(b, k, x) == [b[0]] + t;
        AddToPlace(b[1..], k, x, i - 1);
        if i == |b| {
          ConsAppend(b, (k, [x]));
        } else {
          ConsUpdate(b, i, (k, b[i].1 + [x]));
        }
      }
    }
  }

  lemma HeadUpdate<T>(s: seq<T>, v: T)
    requires s != []
    ensures [v] + s[1..] == s[0 := v]
  {
  }

  lemma ConsAppend<T>(s: seq<T>, v: T)
    requires s != []
    ensures [s[0]] + (s[1..] + [v]) == s + [v]
  {
    assert s == [s[0]] + s[1..];
  }

  lemma ConsUpdate<T>(s: seq<T>, i: nat, v: T)
    requires 0 < i < |s|
    ensures [s[0]] + s[1..][i - 1 := v] == s[i := v]
  {
    var l, r := [s[0]] + s[1..][i - 1 := v], s[i := v];
    assert |l| == |r|;
    forall j | 0 <= j < |l| ensures l[j] == r[j] {
      if j > 0 {
        assert l[j] == s[1..][i - 1 := v][j - 1];
      }
    }
  }

  /** The dict of lists built by appending every element of `s` under its key. */
  function GroupBy<T, K(==)>(s: seq<T>, key: T -> K): Buckets<K, T>
    decreases |s|
  {
    if s == [] then [] else AddTo(GroupBy(s[..|s| - 1], key), key(s[|s| - 1]), s[|s| - 1])
  }

  lemma {:induction false} GroupByDistinct<T, K>(s: seq<T>, key: T -> K)
    ensures DistinctKeys(GroupBy(s, key))
    decreases |s|
  {
    if s != [] {
      GroupByDistinct(s[..|s| - 1], key);
      AddToDict(GroupBy(s[..|s| - 1], key), key(s[|s| - 1]), s[|s| - 1]);
    }
  }

  /** The grouping is a partition: one bucket per distinct key, each holding exactly the
      elements with that key in their original order. */
  lemma {:induction false} GroupByBuckets<T, K>(s: seq<T>, key: T -> K)
    ensures DistinctKeys(GroupBy(s, key))
    ensures forall i :: 0 <= i < |GroupBy(s, key)| ==>
              GroupBy(s, key)[i].1 == Having(s, key, GroupBy(s, key)[i].0) != []
    decreases |s|
  {
    GroupByDistinct(s, key);
    if s != [] {
      var p, x := s[..|s| - 1], s[|s| - 1];
      GroupByBuckets(p, key);
      GroupByDistinct(p, key);
      assert s == p + [x];
      var b := GroupBy(p, key);
      var r := AddTo(b, key(x), x);
      assert GroupBy(s, key) == r;
      AddToDict(b, key(x), x);
      forall i | 0 <= i < |r| ensures r[i].1 == Having(s, key, r[i].0) != [] {
        HavingConcat(p, [x], key, r[i].0);
        assert Having([x], key, r[i].0) == (if key(x) == r[i].0 then [x] else []);
        if i == |b| {
          HavingAbsent(p, key, key(x));
        } else {
          assert r[i].0 == b[i].0;
          assert b[i].1 == Having(p, key, b[i].0) != [];
        }
      }
    }
  }

  /** A key with no bucket has no elements. */
  lemma {:induction false} HavingAbsent<T, K>(s: seq<T>, key: T -> K, k: K)
    requires forall j :: 0 <= j < |GroupBy(s, key)| ==> GroupBy(s, key)[j].0 != k
    ensures Having(s, key, k) == []
    decreases |s|
  {
    if s != [] {
      var p, x := s[..|s| - 1], s[|s| - 1];
      LastSplit(s);
      var b := GroupBy(p, key);
      var r := AddTo(b, key(x), x);
      assert GroupBy(s, key) == r;
      AddToHasKey(b, key(x), x);
      forall j | 0 <= j < |b| ensures b[j].0 != k {
        assert r[j].0 == b[j].0;
      }
      HavingAbsent(p, key, k);
      HavingConcat(p, [x], key, k);
    }
  }

  /** After `AddTo` the key has a bucket. */
  lemma AddToHasKey<K, T>(b: Buckets<K, T>, k: K, x: T)
    ensures exists j :: 0 <= j < |AddTo(b, k, x)| && AddTo(b, k, x)[j].0 == k
  {
    var r := AddTo(b, k, x);
    if forall j :: 0 <= j < |b| ==> b[j].0 != k {
      assert r[|b|].0 == k;
    } else {
      var j :| 0 <= j < |b| && b[j].0 == k;
      assert r[j].0 == k;
    }
  }

  lemma LastSplit<T>(s: seq<T>)
    requires s != []
    ensures s == s[..|s| - 1] + [s[|s| - 1]]
  {
  }

  /** The elements of all buckets, in bucket order. */
  function Flatten<K, T>(b: Buckets<K, T>): seq<T>
    decreases |b|
  {
    if b == [] then [] else b[0].1 + Flatten(b[1..])
  }

  lemma {:induction false} FlattenConcat<K, T>(x: Buckets<K, T>, y: Buckets<K, T>)
    ensures Flatten(x + y) == Flatten(x) + Flatten(y)
    decreases |x|
  {
    if x == [] {
      assert x + y == y;
    } else {
      assert (x + y)[0] == x[0] && (x + y)[1..] == x[1..] + y;
      FlattenConcat(x[1..], y);
    }
  }

  /** Appending under a key adds exactly that element to the flattened buckets. */
  lemma {:induction false} FlattenAddTo<K, T>(b: Buckets<K, T>, k: K, x: T)
    ensures multiset(Flatten(AddTo(b, k, x))) == multiset(Flatten(b)) + multiset{x}
    decreases |b|
  {
    if b == [] {
      assert Flatten([(k, [x])]) == [x] + Flatten([(k, [x])][1..]);
    } else if b[0].0 == k {
      var r := [(k, b[0].1 + [x])] + b[1..];
      assert r[0] == (k, b[0].1 + [x]) && r[1..] == b[1..];
    } else {
      var r := [b[0]] + AddTo(b[1..], k, x);
      assert r[0] == b[0] && r[1..] == AddTo(b[1..], k, x);
      FlattenAddTo(b[1..], k, x);
    }
  }

  /** Grouping loses and duplicates nothing: the buckets hold the elements of `s`. */
  lemma {:induction false} GroupByFlatten<T, K>(s: seq<T>, key: T -> K)
    ensures multiset(Flatten(GroupBy(s, key))) == multiset(s)
    decreases |s|
  {
    if s != [] {
      GroupByFlatten(s[..|s| - 1], key);
      FlattenStep(GroupBy(s[..|s| - 1], key), s, key(s[|s| - 1]));
    }
  }

  /** Adding the last element of `s` to buckets holding the others. */
  lemma FlattenStep<K, T>(b: Buckets<K, T>, s: seq<T>, k: K)
    requires s != [] && multiset(Flatten(b)) == multiset(s[..|s| - 1])
    ensures multiset(Flatten(AddTo(b, k, s[|s| - 1]))) == multiset(s)
  {
    FlattenAddTo(b, k, s[|s| - 1]);
    assert s == s[..|s| - 1] + [s[|s| - 1]];
  }

  /** Reordering the buckets reorders their elements. */
  lemma {:induction false} FlattenPermutation<K, T>(a: Buckets<K, T>, b: Buckets<K, T>)
    requires multiset(a) == multiset(b)
    ensures multiset(Flatten(a)) == multiset(Flatten(b))
    decreases |a|
  {
    if a == [] {
      assert |b| == |multiset(b)| == 0;
    } else {
      var x := a[0];
      assert x in multiset(b) by { assert x in multiset(a); }
      var k :| 0 <= k < |b| && b[k] == x;
      var rest := b[..k] + b[k + 1..];
      RemoveMatching(a, b, k);
      FlattenPermutation(a[1..], rest);
      FlattenRemove(b, k);
      assert Flatten(a) == x.1 + Flatten(a[1..]);
    }
  }

  /** A sequence is the part before position `k`, the element there, and the rest. */
  lemma PivotSplit<T>(s: seq<T>, k: nat)
    requires k < |s|
    ensures s == (s[..k] + [s[k]]) + s[k + 1..]
  {
  }

  /** Taking the first element off `a` and its match off `b` keeps them permutations. */
  lemma RemoveMatching<T>(a: seq<T>, b: seq<T>, k: nat)
    requires multiset(a) == multiset(b) && a != [] && k < |b| && b[k] == a[0]
    ensures multiset(a[1..]) == multiset(b[..k] + b[k + 1..])
  {
    var rest := b[..k] + b[k + 1..];
    assert b == b[..k] + [b[k]] + b[k + 1..];
    assert a == [a[0]] + a[1..];
    assert multiset(b) == multiset(b[..k]) + multiset{b[k]} + multiset(b[k + 1..]);
    assert multiset(a) == multiset{a[0]} + multiset(a[1..]);
    assert multiset(rest) == multiset(b[..k]) + multiset(b[k + 1..]);
    forall y ensures multiset(a[1..])[y] == multiset(rest)[y] {
      assert multiset(a)[y] == multiset(b)[y];
    }
  }

  /** The elements of the buckets are those of bucket `k` and those of the others. */
  lemma FlattenRemove<K, T>(b: Buckets<K, T>, k: nat)
    requires k < |b|
    ensures multiset(Flatten(b)) == multiset(b[k].1) + multiset(Flatten(b[..k] + b[k + 1..]))
  {
    var p, c, q := b[..k], [b[k]], b[k + 1..];
    PivotSplit(b, k);
    assert Flatten(c) == b[k].1 by {
      assert c[1..] == [];
    }
    FlattenConcat(p + c, q);
    FlattenConcat(p, c);
    FlattenConcat(p, q);
    var fp, fq := Flatten(p), Flatten(q);
    assert Flatten(b) == (fp + b[k].1) + fq;
    assert Flatten(p + q) == fp + fq;
    assert multiset((fp + b[k].1) + fq) == multiset(fp) + multiset(b[k].1) + multiset(fq);
  }

  /** Reordering buckets with distinct keys keeps the keys distinct. */
  lemma DistinctKeysPermutation<K, T>(a: Buckets<K, T>, b: Buckets<K, T>)
    requires DistinctKeys(a) && multiset(a) == multiset(b)
    ensures DistinctKeys(b)
  {
    assert NoDup(a);
    NoDupPermutation(a, b);
    forall i, j | 0 <= i < j < |b| ensures b[i].0 != b[j].0 {
      assert b[i] in multiset(a) && b[j] in multiset(a);
      var i' :| 0 <= i' < |a| && a[i'] == b[i];
      var j' :| 0 <= j' < |a| && a[j'] == b[j];
      assert i' != j';
    }
  }
}
