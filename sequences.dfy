/** The library operations the profile page relies on: the ordering of strings,
    `_.filter`, and `_.sortBy` (a stable sort by a string key). */
module Sequences {

  /** JavaScript's `<=` on strings: lexicographic order on character codes. */
  predicate StrLe(a: string, b: string)
  {
    a == [] || (b != [] && (a[0] < b[0] || (a[0] == b[0] && StrLe(a[1..], b[1..]))))
  }

  lemma {:induction false} StrLeReflexive(a: string)
    ensures StrLe(a, a)
  {
    if a != [] {
      StrLeReflexive(a[1..]);
    }
  }

  lemma {:induction false} StrLeTotal(a: string, b: string)
    ensures StrLe(a, b) || StrLe(b, a)
  {
    if a != [] && b != [] && a[0] == b[0] {
      StrLeTotal(a[1..], b[1..]);
    }
  }

  lemma {:induction false} StrLeTransitive(a: string, b: string, c: string)
    requires StrLe(a, b) && StrLe(b, c)
    ensures StrLe(a, c)
  {
    if a != [] && b != [] && c != [] && a[0] == b[0] && b[0] == c[0] {
      StrLeTransitive(a[1..], b[1..], c[1..]);
    }
  }

  /** `_.filter`: the elements satisfying `f`, in their original order. */
  function Filter<T(!new)>(s: seq<T>, f: T -> bool): (r: seq<T>)
    ensures |r| <= |s|
    ensures forall x :: x in r <==> x in s && f(x)
  {
    if s == [] then []
    else
      var n := |s| - 1;
      var rest := Filter(s[..n], f);
      assert s == s[..n] + [s[n]];
      rest + if f(s[n]) then [s[n]] else []
  }

  /** Filtering one more element appends it exactly when it satisfies `f`. */
  lemma FilterAppend<T(!new)>(s: seq<T>, x: T, f: T -> bool)
    ensures Filter(s + [x], f) == Filter(s, f) + (if f(x) then [x] else [])
  {
    assert (s + [x])[..|s|] == s;
  }

  /** `_.filter` keeps each element satisfying `f` as often as `s` holds it, and no other. */
  lemma {:induction false} FilterCount<T(!new)>(s: seq<T>, f: T -> bool, x: T)
    ensures multiset(Filter(s, f))[x] == if f(x) then multiset(s)[x] else 0
  {
    if s != [] {
      var n := |s| - 1;
      var rest := Filter(s[..n], f);
      var here := if f(s[n]) then [s[n]] else [];
      FilterCount(s[..n], f, x);
      assert s == s[..n] + [s[n]];
      assert multiset(s) == multiset(s[..n]) + multiset([s[n]]);
      assert multiset(rest + here) == multiset(rest) + multiset(here);
    }
  }

  /** `rank` strictly increases along `s`. */
  ghost predicate IncreasingBy<T>(s: seq<T>, rank: T -> int)
  {
    forall i, j :: 0 <= i < j < |s| ==> rank(s[i]) < rank(s[j])
  }

  /** `_.filter` keeps the relative order of what it keeps. */
  lemma {:induction false} FilterIncreasing<T(!new)>(s: seq<T>, f: T -> bool, rank: T -> int)
    requires IncreasingBy(s, rank)
    ensures IncreasingBy(Filter(s, f), rank)
  {
    if s != [] {
      var n := |s| - 1;
      var rest := Filter(s[..n], f);
      FilterIncreasing(s[..n], f, rank);
      if f(s[n]) {
        var r := rest + [s[n]];
        forall i, j | 0 <= i < j < |r| ensures rank(r[i]) < rank(r[j]) {
          if j == |rest| {
            assert r[i] in s[..n];
            var m :| 0 <= m < n && s[..n][m] == r[i];
            assert s[m] == r[i];
          } else {
            assert r[i] == rest[i] && r[j] == rest[j];
          }
        }
      }
    }
  }

  ghost predicate SortedBy<T>(s: seq<T>, key: T -> string)
  {
    forall i, j :: 0 <= i < j < |s| ==> StrLe(key(s[i]), key(s[j]))
  }

  /** The elements of `s` whose key is `k`, in order: stability means a sort keeps this. */
  function KeyClass<T>(s: seq<T>, key: T -> string, k: string): seq<T>
  {
    if s == [] then []
    else (if key(s[0]) == k then [s[0]] else []) + KeyClass(s[1..], key, k)
  }

  /** Places `x` before the first element whose key is not below its own. */
  function Insert<T>(x: T, s: seq<T>, key: T -> string): seq<T>
  {
    if s == [] || StrLe(key(x), key(s[0])) then [x] + s
    else [s[0]] + Insert(x, s[1..], key)
  }

  /** A key class holds only elements of its list. */
  lemma {:induction false} KeyClassWithin<T>(s: seq<T>, key: T -> string, k: string)
    ensures forall x :: x in KeyClass(s, key, k) ==> x in s
  {
    if s != [] {
      KeyClassWithin(s[1..], key, k);
      forall x | x in KeyClass(s, key, k) ensures x in s {
        if x != s[0] {
          assert x in KeyClass(s[1..], key, k);
        }
      }
    }
  }

  /** Putting an element below all the ranks of an increasing list in front keeps it increasing. */
  lemma ConsIncreasing<T>(x: T, rest: seq<T>, rank: T -> int)
    requires IncreasingBy(rest, rank)
    requires forall y :: y in rest ==> rank(x) < rank(y)
    ensures IncreasingBy([x] + rest, rank)
  {
    var r := [x] + rest;
    forall i, j | 0 <= i < j < |r| ensures rank(r[i]) < rank(r[j]) {
      assert r[j] == rest[j - 1];
      if i > 0 {
        assert r[i] == rest[i - 1];
      }
    }
  }

  /** The elements of one key class keep their relative order. */
  lemma {:induction false} KeyClassOrdered<T>(s: seq<T>, key: T -> string, k: string, rank: T -> int)
    requires IncreasingBy(s, rank)
    ensures IncreasingBy(KeyClass(s, key, k), rank)
  {
    if s != [] {
      var rest := KeyClass(s[1..], key, k);
      KeyClassOrdered(s[1..], key, k, rank);
      if key(s[0]) == k {
        KeyClassWithin(s[1..], key, k);
        forall y | y in rest ensures rank(s[0]) < rank(y) {
          var m :| 0 <= m < |s[1..]| && s[1..][m] == y;
          assert s[m + 1] == y;
        }
        ConsIncreasing(s[0], rest, rank);
      }
    }
  }

  /** The elements of one key class keep their relative order, and come from the list. */
  lemma {:induction false} KeyClassIncreasing<T>(s: seq<T>, key: T -> string, k: string, rank: T -> int)
    requires IncreasingBy(s, rank)
    ensures IncreasingBy(KeyClass(s, key, k), rank)
    ensures forall x :: x in KeyClass(s, key, k) ==> x in s
  {
    KeyClassOrdered(s, key, k, rank);
    KeyClassWithin(s, key, k);
  }

  /** `_.sortBy(s, key)`: a stable ascending sort by `key`. */
  function SortBy<T>(s: seq<T>, key: T -> string): seq<T>
  {
    if s == [] then [] else Insert(s[0], SortBy(s[1..], key), key)
  }

  lemma {:induction false} InsertPermutes<T>(x: T, s: seq<T>, key: T -> string)
    ensures multiset(Insert(x, s, key)) == multiset([x] + s)
  {
    if !(s == [] || StrLe(key(x), key(s[0]))) {
      InsertPermutes(x, s[1..], key);
      assert s == [s[0]] + s[1..];
    }
  }

  lemma {:induction false} InsertSorted<T>(x: T, s: seq<T>, key: T -> string)
    requires SortedBy(s, key)
    ensures SortedBy(Insert(x, s, key), key)
  {
    if s == [] {
    } else if StrLe(key(x), key(s[0])) {
      var r := [x] + s;
      forall i, j | 0 <= i < j < |r| ensures StrLe(key(r[i]), key(r[j])) {
        if i == 0 && j > 1 {
          StrLeTransitive(key(x), key(s[0]), key(s[j - 1]));
        }
      }
    } else {
      StrLeTotal(key(x), key(s[0]));
      var tail := Insert(x, s[1..], key);
      InsertSorted(x, s[1..], key);
      InsertPermutes(x, s[1..], key);
      var r := [s[0]] + tail;
      forall i, j | 0 <= i < j < |r| ensures StrLe(key(r[i]), key(r[j])) {
        if i == 0 {
          var y := r[j];
          assert y in multiset(tail);
          assert y in multiset([x] + s[1..]);
          if y != x {
            assert y in s[1..];
          }
        }
      }
    }
  }

  lemma {:induction false} InsertKeyClass<T>(x: T, s: seq<T>, key: T -> string, k: string)
    ensures KeyClass(Insert(x, s, key), key, k)
         == (if key(x) == k then [x] else []) + KeyClass(s, key, k)
  {
    var own := if key(x) == k then [x] else [];
    if s == [] || StrLe(key(x), key(s[0])) {
      assert ([x] + s)[1..] == s;
    } else {
      var head := if key(s[0]) == k then [s[0]] else [];
      var rest := Insert(x, s[1..], key);
      StrLeReflexive(key(x));
      assert key(s[0]) != key(x);
      assert own == [] || head == [];
      InsertKeyClass(x, s[1..], key, k);
      assert ([s[0]] + rest)[1..] == rest;
      assert KeyClass(Insert(x, s, key), key, k) == head + (own + KeyClass(s[1..], key, k));
      assert KeyClass(s, key, k) == head + KeyClass(s[1..], key, k);
    }
  }

  /** `_.sortBy` is a permutation of its input. */
  lemma {:induction false} SortByPermutes<T>(s: seq<T>, key: T -> string)
    ensures multiset(SortBy(s, key)) == multiset(s)
    ensures |SortBy(s, key)| == |s|
  {
    if s != [] {
      SortByPermutes(s[1..], key);
      InsertPermutes(s[0], SortBy(s[1..], key), key);
      assert s == [s[0]] + s[1..];
    }
    assert |multiset(SortBy(s, key))| == |SortBy(s, key)|;
    assert |multiset(s)| == |s|;
  }

  /** `_.sortBy` orders its output ascending by key. */
  lemma {:induction false} SortBySorted<T>(s: seq<T>, key: T -> string)
    ensures SortedBy(SortBy(s, key), key)
  {
    if s != [] {
      SortBySorted(s[1..], key);
      InsertSorted(s[0], SortBy(s[1..], key), key);
    }
  }

  /** `_.sortBy` is stable: elements with equal keys keep their relative order. */
  lemma {:induction false} SortByStable<T>(s: seq<T>, key: T -> string, k: string)
    ensures KeyClass(SortBy(s, key), key, k) == KeyClass(s, key, k)
  {
    if s != [] {
      SortByStable(s[1..], key, k);
      InsertKeyClass(s[0], SortBy(s[1..], key), key, k);
    }
  }

  /** Every entry of `idx` is a position of a sequence of length `n`. */
  ghost predicate InRange(idx: seq<int>, n: int)
  {
    forall i :: 0 <= i < |idx| ==> 0 <= idx[i] < n
  }

  /** The positions holding `x`, in order. */
  function Positions<T(==)>(s: seq<T>, x: T): (r: seq<int>)
    ensures forall i :: 0 <= i < |r| ==> 0 <= r[i] < |s|
  {
    if s == [] then []
    else Positions(s[..|s| - 1], x) + (if s[|s| - 1] == x then [|s| - 1] else [])
  }

  /** Every position holding `x` is listed once, and no other is. */
  lemma {:induction false} PositionsCount<T>(s: seq<T>, x: T, k: int)
    ensures multiset(Positions(s, x))[k] == if 0 <= k < |s| && s[k] == x then 1 else 0
  {
    if s != [] {
      var n := |s|;
      var rest := Positions(s[..n - 1], x);
      var here := if s[n - 1] == x then [n - 1] else [];
      assert Positions(s, x) == rest + here;
      assert multiset(rest + here) == multiset(rest) + multiset(here);
      assert multiset(here)[k] == if s[n - 1] == x && k == n - 1 then 1 else 0;
      if k == n - 1 {
        assert k !in rest;
        assert multiset(rest)[k] == 0;
      } else {
        PositionsCount(s[..n - 1], x, k);
        assert 0 <= k < n - 1 ==> s[..n - 1][k] == s[k];
      }
    }
  }

  /** `k` repeated `n` times. */
  function Repeat(k: int, n: nat): (r: seq<int>)
    ensures |r| == n
    ensures multiset(r) == multiset{}[k := n]
  {
    if n == 0 then [] else Repeat(k, n - 1) + [k]
  }

  lemma RepeatAll(k: int, n: nat)
    ensures forall a :: 0 <= a < |Repeat(k, n)| ==> Repeat(k, n)[a] == k
  {
    var r := Repeat(k, n);
    forall a | 0 <= a < |r| ensures r[a] == k {
      assert r[a] in multiset(r);
    }
  }

  /** Position `k` written `counts[k]` times, for every position in order. */
  function Spread(counts: seq<nat>): seq<int>
  {
    if counts == [] then []
    else Spread(counts[..|counts| - 1]) + Repeat(|counts| - 1, counts[|counts| - 1])
  }

  lemma SpreadNext(counts: seq<nat>, c: nat)
    ensures Spread(counts + [c]) == Spread(counts) + Repeat(|counts|, c)
  {
    assert (counts + [c])[..|counts|] == counts;
  }

  lemma {:induction false} SpreadWithin(counts: seq<nat>)
    ensures InRange(Spread(counts), |counts|)
  {
    if counts != [] {
      var n := |counts|;
      SpreadWithin(counts[..n - 1]);
      RepeatAll(n - 1, counts[n - 1]);
    }
  }

  lemma {:induction false} SpreadCount(counts: seq<nat>, k: int)
    requires 0 <= k < |counts|
    ensures multiset(Spread(counts))[k] == counts[k]
  {
    var n := |counts|;
    var rest := Spread(counts[..n - 1]);
    var here := Repeat(n - 1, counts[n - 1]);
    assert Spread(counts) == rest + here;
    assert multiset(rest + here) == multiset(rest) + multiset(here);
    assert multiset(here)[k] == if k == n - 1 then counts[n - 1] else 0;
    if k < n - 1 {
      SpreadCount(counts[..n - 1], k);
      assert counts[..n - 1][k] == counts[k];
    } else {
      SpreadWithin(counts[..n - 1]);
      assert k !in rest;
      assert multiset(rest)[k] == 0;
    }
  }

  lemma {:induction false} SpreadOrdered(counts: seq<nat>)
    ensures forall a, b :: 0 <= a < b < |Spread(counts)| ==> Spread(counts)[a] <= Spread(counts)[b]
  {
    if counts != [] {
      var n := |counts|;
      var rest := Spread(counts[..n - 1]);
      var here := Repeat(n - 1, counts[n - 1]);
      SpreadOrdered(counts[..n - 1]);
      SpreadWithin(counts[..n - 1]);
      RepeatAll(n - 1, counts[n - 1]);
      assert Spread(counts) == rest + here;
    }
  }

  ghost predicate DistinctBy<T>(s: seq<T>, f: T -> int)
  {
    forall a, b :: 0 <= a < b < |s| ==> f(s[a]) != f(s[b])
  }

  lemma {:induction false} FilterDistinct<T(!new)>(s: seq<T>, p: T -> bool, f: T -> int)
    requires DistinctBy(s, f)
    ensures DistinctBy(Filter(s, p), f)
  {
    if s != [] {
      var n := |s| - 1;
      FilterDistinct(s[..n], p, f);
      var rest := Filter(s[..n], p);
      forall y | y in rest ensures f(y) != f(s[n]) {
        var b :| 0 <= b < n && s[..n][b] == y;
        assert s[b] == y;
      }
    }
  }

  lemma {:induction false} InsertDistinct<T>(x: T, s: seq<T>, key: T -> string, f: T -> int)
    requires DistinctBy(s, f)
    requires forall i :: 0 <= i < |s| ==> f(s[i]) != f(x)
    ensures DistinctBy(Insert(x, s, key), f)
  {
    if !(s == [] || StrLe(key(x), key(s[0]))) {
      InsertDistinct(x, s[1..], key, f);
      InsertPermutes(x, s[1..], key);
      var tail := Insert(x, s[1..], key);
      forall j | 0 <= j < |tail| ensures f(tail[j]) != f(s[0]) {
        assert tail[j] in multiset([x] + s[1..]);
        if tail[j] != x {
          assert tail[j] in s[1..];
        }
      }
    }
  }

  /** Sorting keeps a sequence free of duplicate identifiers. */
  lemma {:induction false} SortByDistinct<T>(s: seq<T>, key: T -> string, f: T -> int)
    requires DistinctBy(s, f)
    ensures DistinctBy(SortBy(s, key), f)
  {
    if s != [] {
      SortByDistinct(s[1..], key, f);
      SortByPermutes(s[1..], key);
      var sorted := SortBy(s[1..], key);
      forall i | 0 <= i < |sorted| ensures f(sorted[i]) != f(s[0]) {
        assert sorted[i] in multiset(s[1..]);
      }
      InsertDistinct(s[0], sorted, key, f);
    }
  }
}
