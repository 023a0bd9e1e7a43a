/** Sequence operations the database queries are built from: selection by
    a predicate, ordering by a key in descending order, and the
    LIMIT/OFFSET window. */
module Seqs {
  import opened Wrappers

  /** No two elements share a key: the meaning of a primary key or a
      UNIQUE column on a table. */
  predicate KeysDistinct<T, K(==)>(s: seq<T>, key: T -> K)
  {
    forall i, j :: 0 <= i < j < |s| ==> key(s[i]) != key(s[j])
  }

  /** Appending a row keeps the keys distinct exactly when its key is new. */
  lemma KeysDistinctAppend<T, K>(s: seq<T>, x: T, key: T -> K)
    ensures KeysDistinct(s + [x], key) <==>
      KeysDistinct(s, key) && forall i :: 0 <= i < |s| ==> key(s[i]) != key(x)
  {
    var t := s + [x];
    if KeysDistinct(t, key) {
      forall i, j | 0 <= i < j < |s| ensures key(s[i]) != key(s[j]) {
        assert t[i] == s[i] && t[j] == s[j];
      }
      forall i | 0 <= i < |s| ensures key(s[i]) != key(x) {
        assert t[i] == s[i] && t[|s|] == x;
      }
    }
  }

  /** Replacing a row keeps the keys distinct when no other row has its key. */
  lemma KeysDistinctUpdate<T, K>(s: seq<T>, k: nat, x: T, key: T -> K)
    requires k < |s| && KeysDistinct(s, key)
    requires forall i :: 0 <= i < |s| && i != k ==> key(s[i]) != key(x)
    ensures KeysDistinct(s[k := x], key)
  {
  }

  /** Some element has key `v`: the target of a foreign key exists. */
  predicate HasKey<T, K(==)>(s: seq<T>, key: T -> K, v: K)
  {
    exists i :: 0 <= i < |s| && key(s[i]) == v
  }

  /** Appending a row removes no key. */
  lemma HasKeyAppend<T, K>(s: seq<T>, x: T, key: T -> K)
    ensures forall v :: HasKey(s, key, v) ==> HasKey(s + [x], key, v)
  {
    forall v | HasKey(s, key, v) ensures HasKey(s + [x], key, v) {
      var i :| 0 <= i < |s| && key(s[i]) == v;
      assert (s + [x])[i] == s[i];
    }
  }

  /** Replacing a row by one with the same key removes no key. */
  lemma HasKeyUpdate<T, K>(s: seq<T>, k: nat, x: T, key: T -> K)
    requires k < |s| && key(x) == key(s[k])
    ensures forall v :: HasKey(s, key, v) ==> HasKey(s[k := x], key, v)
  {
    forall v | HasKey(s, key, v) ensures HasKey(s[k := x], key, v) {
      var i :| 0 <= i < |s| && key(s[i]) == v;
      assert key(s[k := x][i]) == v;
    }
  }

  /** Index of the first element satisfying `p`. */
  function FindIndex<T>(s: seq<T>, p: T -> bool): (r: Option<nat>)
    ensures r.Some? ==> r.value < |s| && p(s[r.value])
    ensures r.Some? ==> forall i :: 0 <= i < r.value ==> !p(s[i])
    ensures r.None? ==> forall i :: 0 <= i < |s| ==> !p(s[i])
  {
    if s == [] then None
    else if p(s[0]) then Some(0)
    else
      match FindIndex(s[1..], p)
      case None => None
      case Some(k) => Some(k + 1)
  }

  /** First element satisfying `p` (`findOne`, `findByPk`). */
  function Find<T>(s: seq<T>, p: T -> bool): (r: Option<T>)
    ensures r.Some? ==> r.value in s && p(r.value)
    ensures r.None? <==> forall i :: 0 <= i < |s| ==> !p(s[i])
  {
    match FindIndex(s, p)
    case None => None
    case Some(k) => Some(s[k])
  }

  /** The elements satisfying `p` (a WHERE clause): each one as often as
      it occurs in `s`, and nothing else. */
  function Filter<T(!new)>(s: seq<T>, p: T -> bool): (r: seq<T>)
    ensures |r| <= |s|
    ensures forall i :: 0 <= i < |r| ==> r[i] in s && p(r[i])
    ensures forall i :: 0 <= i < |s| && p(s[i]) ==> s[i] in r
    ensures forall x :: multiset(r)[x] == if p(x) then multiset(s)[x] else 0
  {
    if s == [] then []
    else
      assert s == [s[0]] + s[1..];
      var rest := Filter(s[1..], p);
      assert forall i :: 0 <= i < |rest| ==> rest[i] in s[1..];
      assert forall i :: 1 <= i < |s| ==> s[i] == s[1..][i - 1];
      if p(s[0]) then [s[0]] + rest else rest
  }

  /** How many elements of `s` satisfy `p`: what `COUNT(*)` returns for
      that WHERE clause. */
  function Count<T>(s: seq<T>, p: T -> bool): (n: nat)
    ensures n <= |s|
    ensures n == 0 <==> forall i :: 0 <= i < |s| ==> !p(s[i])
  {
    if s == [] then 0
    else
      var k := Count(s[1..], p);
      assert forall i :: 1 <= i < |s| ==> s[i] == s[1..][i - 1];
      (if p(s[0]) then 1 else 0) + k
  }

  /** The filtered rows are as many as the count says. */
  lemma {:induction false} FilterCount<T(!new)>(s: seq<T>, p: T -> bool)
    ensures |Filter(s, p)| == Count(s, p)
  {
    if s != [] {
      FilterCount(s[1..], p);
    }
  }

  predicate SortedDesc<T>(s: seq<T>, key: T -> int)
  {
    forall i, j :: 0 <= i < j < |s| ==> key(s[i]) >= key(s[j])
  }

  /** Prepending an element no smaller than the head keeps a sequence sorted. */
  lemma SortedCons<T>(a: T, s: seq<T>, key: T -> int)
    requires SortedDesc(s, key)
    requires |s| > 0 ==> key(a) >= key(s[0])
    ensures SortedDesc([a] + s, key)
  {
    var r := [a] + s;
    forall i, j | 0 <= i < j < |r| ensures key(r[i]) >= key(r[j]) {
      if i == 0 {
        assert r[j] == s[j - 1];
        assert key(s[0]) >= key(s[j - 1]) || j == 1;
      } else {
        assert r[i] == s[i - 1] && r[j] == s[j - 1];
      }
    }
  }

  function InsertDesc<T>(x: T, s: seq<T>, key: T -> int): (r: seq<T>)
    requires SortedDesc(s, key)
    ensures |r| == |s| + 1
    ensures r[0] == x || (|s| > 0 && r[0] == s[0])
    ensures SortedDesc(r, key)
    ensures multiset(r) == multiset(s) + multiset{x}
  {
    if s == [] then [x]
    else if key(s[0]) <= key(x) then
      SortedCons(x, s, key);
      [x] + s
    else
      var rest := InsertDesc(x, s[1..], key);
      assert s == [s[0]] + s[1..];
      assert |s| > 1 ==> key(s[0]) >= key(s[1]);
      SortedCons(s[0], rest, key);
      [s[0]] + rest
  }

  /** `ORDER BY key DESC`: sorted with the largest key first, and a
      permutation of the input (ties keep their input order, which the
      database leaves unspecified). */
  function SortDesc<T>(s: seq<T>, key: T -> int): (r: seq<T>)
    ensures SortedDesc(r, key)
    ensures multiset(r) == multiset(s)
    ensures |r| == |s|
    ensures forall i :: 0 <= i < |r| ==> r[i] in s
  {
    if s == [] then []
    else
      assert s == [s[0]] + s[1..];
      var r := InsertDesc(s[0], SortDesc(s[1..], key), key);
      SameMembers(r, s);
      r
  }

  /** Sequences with the same multiset have the same members. */
  lemma SameMembers<T>(r: seq<T>, s: seq<T>)
    requires multiset(r) == multiset(s)
    ensures forall i :: 0 <= i < |r| ==> r[i] in s
  {
    forall i | 0 <= i < |r| ensures r[i] in s {
      assert r[i] in multiset(r);
    }
  }

  /** A window of a sorted sequence is sorted. */
  lemma WindowSorted<T>(s: seq<T>, key: T -> int, offset: nat, limit: nat)
    requires SortedDesc(s, key)
    ensures SortedDesc(Window(s, offset, limit), key)
  {
    var w := Window(s, offset, limit);
    forall i, j | 0 <= i < j < |w| ensures key(w[i]) >= key(w[j]) {
      assert w[i] == s[offset + i] && w[j] == s[offset + j];
    }
  }

  /** `LIMIT limit OFFSET offset` on an already ordered result: at most
      `limit` rows, the ones at positions `offset`, `offset + 1`, ... */
  function Window<T>(s: seq<T>, offset: nat, limit: nat): (r: seq<T>)
    ensures |r| == if offset >= |s| then 0 else Min(limit, |s| - offset)
    ensures forall i :: 0 <= i < |r| ==> r[i] == s[offset + i]
  {
    if offset >= |s| then [] else s[offset..offset + Min(limit, |s| - offset)]
  }

  /** The first `n` pages of size `size`, one after the other. */
  function FirstPages<T>(s: seq<T>, size: nat, n: nat): seq<T>
  {
    if n == 0 then [] else FirstPages(s, size, n - 1) + Window(s, (n - 1) * size, size)
  }

  lemma {:induction false} FirstPagesArePrefix<T>(s: seq<T>, size: nat, n: nat)
    ensures FirstPages(s, size, n) == s[..Min(n * size, |s|)]
  {
    if n > 0 {
      FirstPagesArePrefix(s, size, n - 1);
      var a := Min((n - 1) * size, |s|);
      var b := Min(n * size, |s|);
      assert (n - 1) * size + size == n * size;
      assert s[..b] == s[..a] + s[a..b];
    }
  }

  /** Pagination loses and repeats nothing: pages 1 to `ceil(|s| / size)`
      together are `s`, in order, and every later page is empty. */
  lemma PagesCoverAll<T>(s: seq<T>, size: nat, later: nat)
    requires size > 0
    requires later >= CeilDiv(|s|, size)
    ensures FirstPages(s, size, CeilDiv(|s|, size)) == s
    ensures Window(s, later * size, size) == []
  {
    var n := CeilDiv(|s|, size);
    FirstPagesArePrefix(s, size, n);
    assert n * size >= |s|;
    assert later * size >= n * size by {
      MulMonotone(n, later, size);
    }
  }

  lemma MulMonotone(a: nat, b: nat, c: nat)
    requires a <= b
    ensures a * c <= b * c
  {
  }

  function Min(a: int, b: int): int { if a <= b then a else b }
  function Max(a: int, b: int): int { if a >= b then a else b }

  /** `Math.ceil(a / b)` for a positive divisor. */
  function CeilDiv(a: int, b: int): (r: int)
    requires b > 0
    ensures (r - 1) * b < a <= r * b
  {
    if a % b == 0 then a / b else a / b + 1
  }
}
