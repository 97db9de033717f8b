/**
 * The ordered reads the backend asks its ORM for: `latest()` (newest first by creation time),
 * `take(n)` and `paginate(perPage)`. The database does these in SQL; here they are functions over
 * a table held as a sequence of rows, with the ordering and coverage facts callers rely on.
 */
module Queries {

  /** Rows are ordered by `key` (the creation time), largest first. */
  ghost predicate NewestFirst<T>(s: seq<T>, key: T -> nat) {
    forall i, j :: 0 <= i < j < |s| ==> key(s[i]) >= key(s[j])
  }

  /** Insert `x` into a newest-first sequence, before every row that is not newer than it. */
  function Insert<T(==)>(x: T, s: seq<T>, key: T -> nat): (r: seq<T>)
    requires NewestFirst(s, key)
    ensures NewestFirst(r, key)
    ensures multiset(r) == multiset(s) + multiset{x}
    ensures |r| == |s| + 1
  {
    if s == [] then [x]
    else if key(x) >= key(s[0]) then [x] + s
    else
      var tail := Insert(x, s[1..], key);
      assert s == [s[0]] + s[1..];
      BoundedByHead(x, s, tail, key);
      ConsNewestFirst(s[0], tail, key);
      [s[0]] + tail
  }

  /** Every row of `s[1..]`, and `x`, is no newer than `s[0]`; so is any rearrangement of them. */
  lemma BoundedByHead<T>(x: T, s: seq<T>, tail: seq<T>, key: T -> nat)
    requires s != [] && key(x) < key(s[0]) && NewestFirst(s, key)
    requires multiset(tail) == multiset(s[1..]) + multiset{x}
    ensures forall j :: 0 <= j < |tail| ==> key(tail[j]) <= key(s[0])
  {
    forall j | 0 <= j < |tail| ensures key(tail[j]) <= key(s[0]) {
      assert tail[j] in multiset(tail);
      if tail[j] != x {
        assert tail[j] in multiset(s[1..]);
        var m :| 0 <= m < |s[1..]| && s[1..][m] == tail[j];
        assert s[m + 1] == tail[j];
      }
    }
  }

  lemma ConsNewestFirst<T>(h: T, tail: seq<T>, key: T -> nat)
    requires NewestFirst(tail, key)
    requires forall j :: 0 <= j < |tail| ==> key(tail[j]) <= key(h)
    ensures NewestFirst([h] + tail, key)
  {
    var r := [h] + tail;
    forall i, j | 0 <= i < j < |r| ensures key(r[i]) >= key(r[j]) {
      assert r[j] == tail[j - 1];
      if i > 0 { assert r[i] == tail[i - 1]; }
    }
  }

  /** `orderBy(created_at, 'desc')`: a stable insertion sort, newest first. */
  function Latest<T(==)>(s: seq<T>, key: T -> nat): (r: seq<T>)
    ensures NewestFirst(r, key)
    ensures multiset(r) == multiset(s)
    ensures |r| == |s|
  {
    if s == [] then []
    else
      assert s == [s[0]] + s[1..];
      Insert(s[0], Latest(s[1..], key), key)
  }

  /** `latest()->take(n)`: the `n` newest rows, newest first. */
  function LatestN<T(==)>(s: seq<T>, n: nat, key: T -> nat): (r: seq<T>)
    ensures |r| <= n && |r| <= |s|
    ensures forall x :: x in r ==> x in s
  {
    var sorted := Latest(s, key);
    var r := sorted[..if n < |sorted| then n else |sorted|];
    assert forall x :: x in r ==> x in multiset(sorted);
    r
  }

  /** `take(n)` keeps at most `n` rows, keeps them newest first, takes them from the table, and
      leaves out no row that is newer than one it keeps. */
  lemma {:induction false} LatestNAreNewest<T>(s: seq<T>, n: nat, key: T -> nat)
    ensures |LatestN(s, n, key)| == if n < |s| then n else |s|
    ensures NewestFirst(LatestN(s, n, key), key)
    ensures multiset(LatestN(s, n, key)) <= multiset(s)
    ensures forall x, y :: x in LatestN(s, n, key) && y in multiset(s) - multiset(LatestN(s, n, key))
              ==> key(x) >= key(y)
  {
    var sorted := Latest(s, key);
    var k := if n < |sorted| then n else |sorted|;
    var taken, rest := sorted[..k], sorted[k..];
    assert sorted == taken + rest;
    assert multiset(sorted) == multiset(taken) + multiset(rest);
    forall x, y | x in taken && y in multiset(s) - multiset(taken) ensures key(x) >= key(y) {
      assert y in multiset(rest);
      var i :| 0 <= i < |taken| && taken[i] == x;
      var j :| 0 <= j < |rest| && rest[j] == y;
      assert sorted[i] == x && sorted[k + j] == y;
    }
  }

  function Min(a: int, b: int): int { if a < b then a else b }

  /** Page `page` (1-based) of `size` rows: what `paginate(size)` returns as `data`. */
  function PageSlice<T>(s: seq<T>, page: nat, size: nat): (r: seq<T>)
    requires page >= 1
    ensures |r| <= size
  {
    assert page * size == (page - 1) * size + size;
    s[Min((page - 1) * size, |s|)..Min(page * size, |s|)]
  }

  /** A page of a newest-first sequence is newest first. */
  lemma PageSliceNewestFirst<T>(s: seq<T>, page: nat, size: nat, key: T -> nat)
    requires page >= 1 && NewestFirst(s, key)
    ensures NewestFirst(PageSlice(s, page, size), key)
  {
    var lo := Min((page - 1) * size, |s|);
    var r := PageSlice(s, page, size);
    forall i, j | 0 <= i < j < |r| ensures key(r[i]) >= key(r[j]) {
      assert r[i] == s[lo + i] && r[j] == s[lo + j];
    }
  }

  /** `last_page` in the paginator's meta: at least 1, and enough pages for every row. */
  function LastPage(total: nat, size: nat): (r: nat)
    requires size >= 1
    ensures r >= 1
    ensures (r - 1) * size < total || r == 1
    ensures total <= r * size
  {
    if total <= size then 1 else 1 + LastPage(total - size, size)
  }

  /** Pages 1 to `k` laid end to end are the first `k * size` rows: no row is repeated or skipped. */
  lemma {:induction false} PagesConcatenate<T>(s: seq<T>, size: nat, k: nat)
    requires size >= 1
    ensures Pages(s, size, k) == s[..Min(k * size, |s|)]
  {
    if k > 0 {
      PagesConcatenate(s, size, k - 1);
      assert (k - 1) * size + size == k * size;
    }
  }

  /** Pages 1 to `k`, concatenated. */
  function Pages<T>(s: seq<T>, size: nat, k: nat): seq<T> {
    if k == 0 then [] else Pages(s, size, k - 1) + PageSlice(s, k, size)
  }

  /** All pages up to `last_page` together are exactly the ordered table. */
  lemma PagesCoverAll<T>(s: seq<T>, size: nat)
    requires size >= 1
    ensures Pages(s, size, LastPage(|s|, size)) == s
  {
    PagesConcatenate(s, size, LastPage(|s|, size));
  }
}
