/** The array operations the store builds its queries from -- `filter`, `find`,
    the comparator-driven `sort` and `slice(0, n)` -- as functions on sequences,
    with the facts about them that the store's contracts rest on. */
module Collections {
  import opened Wrappers

  /** `s.filter(p)`: the elements that satisfy `p`, in their original order.
      The ensures give membership; `FilterCons` and `FilterAppend` give the
      order and the multiplicity. */
  function Filter<T(!new)>(s: seq<T>, p: T -> bool): (r: seq<T>)
    ensures |r| <= |s|
    ensures forall x {:trigger x in r} :: x in r <==> x in s && p(x)
  {
    if s == [] then []
    else if p(s[0]) then [s[0]] + Filter(s[1..], p)
    else Filter(s[1..], p)
  }

  /** `s.find(p)`: the first element that satisfies `p`, if any. */
  function Find<T(!new)>(s: seq<T>, p: T -> bool): (r: Option<T>)
    ensures r.None? <==> forall i :: 0 <= i < |s| ==> !p(s[i])
    ensures r.Some? ==> exists i :: 0 <= i < |s| && s[i] == r.value && p(s[i]) &&
                                    forall j :: 0 <= j < i ==> !p(s[j])
  {
    if s == [] then None
    else if p(s[0]) then Some(s[0])
    else
      var r := Find(s[1..], p);
      assert r.Some? ==> exists i :: 0 < i < |s| && s[i] == r.value && p(s[i]) &&
                                     forall j :: 0 <= j < i ==> !p(s[j]) by {
        if r.Some? {
          var i :| 0 <= i < |s| - 1 && s[1..][i] == r.value && p(s[1..][i]) &&
                   forall j :: 0 <= j < i ==> !p(s[1..][j]);
          assert forall j :: 0 <= j < i + 1 ==> !p(s[j]) by {
            forall j | 0 <= j < i + 1 ensures !p(s[j]) {
              if j > 0 { assert s[j] == s[1..][j - 1]; }
            }
          }
        }
      }
      r
  }

  /** Appending an element changes what `find` returns only when nothing
      before it matched. */
  lemma {:induction false} FindAppend<T(!new)>(s: seq<T>, x: T, p: T -> bool)
    ensures Find(s + [x], p) == if Find(s, p).Some? then Find(s, p) else if p(x) then Some(x) else None
  {
    if s == [] {
      assert s + [x] == [x];
    } else {
      assert (s + [x])[0] == s[0];
      assert (s + [x])[1..] == s[1..] + [x];
      FindAppend(s[1..], x, p);
    }
  }

  /** `s.slice(0, n)` for a non-negative `n`: the first `n` elements, or all of
      them when there are fewer. */
  function Take<T(!new)>(s: seq<T>, n: nat): (r: seq<T>)
    ensures |r| == if n < |s| then n else |s|
    ensures forall i :: 0 <= i < |r| ==> r[i] == s[i]
  {
    if n < |s| then s[..n] else s
  }

  /** Ordered newest first: keys never increase along the sequence. */
  predicate SortedDesc<T(!new)>(s: seq<T>, key: T -> int) {
    forall i, j :: 0 <= i < j < |s| ==> key(s[i]) >= key(s[j])
  }

  /** No two elements share an identifier. */
  predicate DistinctBy<T(!new)>(s: seq<T>, id: T -> int) {
    forall i, j :: 0 <= i < j < |s| ==> id(s[i]) != id(s[j])
  }

  /** Identifiers are 1, 2, 3, ... in order. */
  predicate NumberedFromOne<T(!new)>(s: seq<T>, id: T -> int) {
    forall i :: 0 <= i < |s| ==> id(s[i]) == i + 1
  }

  /** Appending the element numbered one past the last keeps the numbering. */
  lemma NumberedAppend<T(!new)>(s: seq<T>, x: T, id: T -> int)
    requires NumberedFromOne(s, id) && id(x) == |s| + 1
    ensures NumberedFromOne(s + [x], id)
    ensures forall y :: y in s ==> id(y) < id(x)
  {
  }

  /** Identifiers strictly increase along the sequence (creation order). */
  predicate IncreasingBy<T(!new)>(s: seq<T>, id: T -> int) {
    forall i, j :: 0 <= i < j < |s| ==> id(s[i]) < id(s[j])
  }

  /** Filtering keeps identifiers distinct. */
  lemma {:induction false} FilterDistinct<T(!new)>(s: seq<T>, p: T -> bool, id: T -> int)
    requires DistinctBy(s, id)
    ensures DistinctBy(Filter(s, p), id)
  {
    if s != [] {
      FilterDistinct(s[1..], p, id);
      var f := Filter(s[1..], p);
      if p(s[0]) {
        forall k | 0 <= k < |f| ensures id(s[0]) != id(f[k]) {
          assert f[k] in f;
          var m :| 0 <= m < |s[1..]| && s[1..][m] == f[k];
          assert s[m + 1] == f[k];
        }
      }
    }
  }

  /** Filtering keeps identifiers in increasing order. */
  lemma {:induction false} FilterIncreasing<T(!new)>(s: seq<T>, p: T -> bool, id: T -> int)
    requires IncreasingBy(s, id)
    ensures IncreasingBy(Filter(s, p), id)
  {
    if s != [] {
      FilterIncreasing(s[1..], p, id);
      var f := Filter(s[1..], p);
      if p(s[0]) {
        forall k | 0 <= k < |f| ensures id(s[0]) < id(f[k]) {
          assert f[k] in f;
          var m :| 0 <= m < |s[1..]| && s[1..][m] == f[k];
          assert s[m + 1] == f[k];
        }
      }
    }
  }

  /** The first `n` elements of a newest-first sequence are its newest: no
      element left out is newer than one kept. */
  lemma TakeSortedNewest<T(!new)>(s: seq<T>, n: nat, key: T -> int, x: T, y: T)
    requires SortedDesc(s, key)
    requires x in Take(s, n) && y in s && y !in Take(s, n)
    ensures key(x) >= key(y)
  {
    var t := Take(s, n);
    var i :| 0 <= i < |t| && t[i] == x;
    var j :| 0 <= j < |s| && s[j] == y;
    assert s[i] == x;
  }

  /** The first `n` elements of the sorted sequence (what a sort followed by
      `slice(0, n)` returns) are newest first, come from `s`, and are its
      newest: nothing left out is newer than anything kept. */
  lemma NewestPrefix<T(!new)>(s: seq<T>, n: nat, key: T -> int)
    ensures var r := Take(SortDesc(s, key), n);
            SortedDesc(r, key) &&
            (forall x :: x in r ==> x in s) &&
            forall x, y {:trigger x in r, y in s} :: x in r && y in s && y !in r ==> key(x) >= key(y)
  {
    var sorted := SortDesc(s, key);
    var r := Take(sorted, n);
    SortDescMembers(s, key);
    forall i, j | 0 <= i < j < |r| ensures key(r[i]) >= key(r[j]) {
      assert r[i] == sorted[i] && r[j] == sorted[j];
    }
    forall x | x in r ensures x in s {
      var i :| 0 <= i < |r| && r[i] == x;
      assert sorted[i] == x;
    }
    forall x, y | x in r && y in s && y !in r ensures key(x) >= key(y) {
      assert y in sorted;
      TakeSortedNewest(sorted, n, key, x, y);
    }
  }

  /** One step of a stable sort by descending key: `x`, which came before every
      element of `s` in the input, goes in front of the first element whose key
      is not greater than its own. */
  function InsertDesc<T(!new)>(x: T, s: seq<T>, key: T -> int): (r: seq<T>)
    ensures |r| == |s| + 1
    ensures multiset(r) == multiset(s) + multiset{x}
  {
    if s == [] || key(s[0]) <= key(x) then
      [x] + s
    else
      assert s == [s[0]] + s[1..];
      [s[0]] + InsertDesc(x, s[1..], key)
  }

  /** An insertion step adds the element and keeps every other one. */
  lemma InsertDescMembers<T(!new)>(x: T, s: seq<T>, key: T -> int)
    ensures forall y :: y in InsertDesc(x, s, key) <==> y == x || y in s
  {
    var r := InsertDesc(x, s, key);
    forall y ensures y in r <==> y == x || y in s {
      assert y in r <==> y in multiset(r);
      assert y in s <==> y in multiset(s);
    }
  }

  /** An element no older than anything in a newest-first sequence may lead it. */
  lemma SortedCons<T(!new)>(h: T, t: seq<T>, key: T -> int)
    requires SortedDesc(t, key)
    requires forall y :: y in t ==> key(h) >= key(y)
    ensures SortedDesc([h] + t, key)
  {
    var r := [h] + t;
    forall i, j | 0 <= i < j < |r| ensures key(r[i]) >= key(r[j]) {
      assert r[j] == t[j - 1] && t[j - 1] in t;
      if i > 0 {
        assert r[i] == t[i - 1];
      }
    }
  }

  /** The head of a newest-first sequence is no older than any of its elements. */
  lemma SortedHead<T(!new)>(s: seq<T>, key: T -> int)
    requires SortedDesc(s, key) && s != []
    ensures forall y :: y in s ==> key(s[0]) >= key(y)
  {
    forall y | y in s ensures key(s[0]) >= key(y) {
      var m :| 0 <= m < |s| && s[m] == y;
    }
  }

  /** An insertion step keeps a newest-first sequence newest first. */
  lemma {:induction false} InsertDescSorted<T(!new)>(x: T, s: seq<T>, key: T -> int)
    requires SortedDesc(s, key)
    ensures SortedDesc(InsertDesc(x, s, key), key)
  {
    if s == [] || key(s[0]) <= key(x) {
      assert InsertDesc(x, s, key) == [x] + s;
      if s != [] {
        SortedHead(s, key);
      }
      SortedCons(x, s, key);
    } else {
      var t := InsertDesc(x, s[1..], key);
      assert InsertDesc(x, s, key) == [s[0]] + t;
      InsertDescSorted(x, s[1..], key);
      InsertDescMembers(x, s[1..], key);
      SortedHead(s, key);
      assert forall y :: y in s[1..] ==> y in s;
      SortedCons(s[0], t, key);
    }
  }

  /** `s.sort((a, b) => key(b) - key(a))`: newest first, and stable, as the
      language's sort has been since ES2019 -- elements with equal keys keep
      their relative order. */
  function SortDesc<T(!new)>(s: seq<T>, key: T -> int): (r: seq<T>)
    ensures |r| == |s|
    ensures multiset(r) == multiset(s)
    ensures SortedDesc(r, key)
  {
    if s == [] then []
    else
      assert s == [s[0]] + s[1..];
      InsertDescSorted(s[0], SortDesc(s[1..], key), key);
      InsertDesc(s[0], SortDesc(s[1..], key), key)
  }

  /** Sorting neither adds nor drops an element. */
  lemma SortDescMembers<T(!new)>(s: seq<T>, key: T -> int)
    ensures forall x :: x in SortDesc(s, key) <==> x in s
  {
    var r := SortDesc(s, key);
    forall x ensures x in r <==> x in s {
      assert x in r <==> x in multiset(r);
      assert x in s <==> x in multiset(s);
    }
  }

  /** Selects the elements whose key is exactly `k`. */
  function KeyIs<T(!new)>(key: T -> int, k: int): T -> bool {
    (y: T) => key(y) == k
  }

  /** Filtering distributes over concatenation. */
  lemma {:induction false} FilterAppend<T(!new)>(a: seq<T>, b: seq<T>, p: T -> bool)
    ensures Filter(a + b, p) == Filter(a, p) + Filter(b, p)
  {
    if a == [] {
      assert a + b == b;
    } else {
      assert (a + b)[0] == a[0];
      assert (a + b)[1..] == a[1..] + b;
      FilterAppend(a[1..], b, p);
    }
  }

  /** Sorting a sequence that is already newest first changes nothing. */
  lemma {:induction false} SortDescOfSorted<T(!new)>(s: seq<T>, key: T -> int)
    requires SortedDesc(s, key)
    ensures SortDesc(s, key) == s
  {
    if s != [] {
      SortDescOfSorted(s[1..], key);
    }
  }

  /** Sorting twice is sorting once. */
  lemma SortDescIdempotent<T(!new)>(s: seq<T>, key: T -> int)
    ensures SortDesc(SortDesc(s, key), key) == SortDesc(s, key)
  {
    SortDescOfSorted(SortDesc(s, key), key);
  }

  /** Filtering a sequence with a known head. */
  lemma FilterCons<T(!new)>(h: T, t: seq<T>, p: T -> bool)
    ensures Filter([h] + t, p) == if p(h) then [h] + Filter(t, p) else Filter(t, p)
  {
    assert ([h] + t)[0] == h && ([h] + t)[1..] == t;
  }

  /** Filtering after one insertion step is the insertion step on the filtered
      sequence (or nothing, when the inserted element is filtered out). */
  lemma {:induction false} FilterInsertDesc<T(!new)>(x: T, s: seq<T>, p: T -> bool, key: T -> int)
    requires SortedDesc(s, key)
    ensures Filter(InsertDesc(x, s, key), p) ==
            if p(x) then InsertDesc(x, Filter(s, p), key) else Filter(s, p)
  {
    var f := Filter(s, p);
    if s == [] || key(s[0]) <= key(x) {
      assert InsertDesc(x, s, key) == [x] + s;
      FilterCons(x, s, p);
      if p(x) && f != [] {
        assert f[0] in f;
        SortedHead(s, key);
        assert InsertDesc(x, f, key) == [x] + f;
      }
    } else {
      var t := InsertDesc(x, s[1..], key);
      assert InsertDesc(x, s, key) == [s[0]] + t;
      FilterCons(s[0], t, p);
      FilterInsertDesc(x, s[1..], p, key);
      var f1 := Filter(s[1..], p);
      assert s == [s[0]] + s[1..];
      FilterCons(s[0], s[1..], p);
      if p(s[0]) && p(x) {
        assert f == [s[0]] + f1;
        assert InsertDesc(x, f, key) == [s[0]] + InsertDesc(x, f1, key);
      }
    }
  }

  /** A stable sort commutes with filtering: the selected elements come out in
      the same order whether they are selected before or after sorting. */
  lemma {:induction false} FilterSortDesc<T(!new)>(s: seq<T>, p: T -> bool, key: T -> int)
    ensures Filter(SortDesc(s, key), p) == SortDesc(Filter(s, p), key)
  {
    if s != [] {
      FilterSortDesc(s[1..], p, key);
      FilterInsertDesc(s[0], SortDesc(s[1..], key), p, key);
    }
  }

  /** Stability: the elements that share one key keep their input order. */
  lemma SortDescStable<T(!new)>(s: seq<T>, key: T -> int, k: int)
    ensures Filter(SortDesc(s, key), KeyIs(key, k)) == Filter(s, KeyIs(key, k))
  {
    var f := Filter(s, KeyIs(key, k));
    FilterSortDesc(s, KeyIs(key, k), key);
    assert SortedDesc(f, key) by {
      forall i, j | 0 <= i < j < |f| ensures key(f[i]) >= key(f[j]) {
        assert f[i] in f && f[j] in f;
      }
    }
    SortDescOfSorted(f, key);
  }

  /** An element whose identifier is new may lead a sequence of distinct
      identifiers. */
  lemma DistinctCons<T(!new)>(h: T, t: seq<T>, id: T -> int)
    requires DistinctBy(t, id)
    requires forall y :: y in t ==> id(y) != id(h)
    ensures DistinctBy([h] + t, id)
  {
    var r := [h] + t;
    forall i, j | 0 <= i < j < |r| ensures id(r[i]) != id(r[j]) {
      assert r[j] == t[j - 1] && t[j - 1] in t;
      if i > 0 {
        assert r[i] == t[i - 1];
      }
    }
  }

  /** Inserting an element whose identifier is new keeps identifiers distinct. */
  lemma {:induction false} InsertDescDistinct<T(!new)>(x: T, s: seq<T>, key: T -> int, id: T -> int)
    requires DistinctBy(s, id)
    requires forall y :: y in s ==> id(y) != id(x)
    ensures DistinctBy(InsertDesc(x, s, key), id)
  {
    if s == [] || key(s[0]) <= key(x) {
      assert InsertDesc(x, s, key) == [x] + s;
      DistinctCons(x, s, id);
    } else {
      var t := InsertDesc(x, s[1..], key);
      assert InsertDesc(x, s, key) == [s[0]] + t;
      assert s == [s[0]] + s[1..];
      InsertDescDistinct(x, s[1..], key, id);
      InsertDescMembers(x, s[1..], key);
      forall y | y in t ensures id(y) != id(s[0]) {
        if y != x {
          var m :| 0 <= m < |s[1..]| && s[1..][m] == y;
          assert s[m + 1] == y;
        }
      }
      DistinctCons(s[0], t, id);
    }
  }

  /** Sorting keeps identifiers distinct. */
  lemma {:induction false} SortDescDistinct<T(!new)>(s: seq<T>, key: T -> int, id: T -> int)
    requires DistinctBy(s, id)
    ensures DistinctBy(SortDesc(s, key), id)
  {
    if s != [] {
      SortDescDistinct(s[1..], key, id);
      var t := SortDesc(s[1..], key);
      forall y | y in t ensures id(y) != id(s[0]) {
        assert y in multiset(s[1..]);
        var m :| 0 <= m < |s[1..]| && s[1..][m] == y;
        assert s[m + 1] == y;
      }
      InsertDescDistinct(s[0], t, key, id);
    }
  }

  /** `a` and `b` hold the same elements, and the elements that share a key
      come in the same order in both: the only freedom a stable sort has. */
  ghost predicate SameTieOrder<T(!new)>(a: seq<T>, b: seq<T>, key: T -> int) {
    forall k :: Filter(a, KeyIs(key, k)) == Filter(b, KeyIs(key, k))
  }

  /** Removing the first element from both sides keeps the tie order equal,
      when the first elements agree. */
  lemma SameTieOrderTail<T(!new)>(a: seq<T>, b: seq<T>, key: T -> int)
    requires a != [] && b != [] && a[0] == b[0]
    requires SameTieOrder(a, b, key)
    ensures SameTieOrder(a[1..], b[1..], key)
  {
    forall k ensures Filter(a[1..], KeyIs(key, k)) == Filter(b[1..], KeyIs(key, k)) {
      var p := KeyIs(key, k);
      var fa, fb := Filter(a[1..], p), Filter(b[1..], p);
      assert Filter(a, p) == Filter(b, p);
      if p(a[0]) {
        assert Filter(a, p) == [a[0]] + fa && Filter(b, p) == [a[0]] + fb;
        assert ([a[0]] + fa)[1..] == fa && ([a[0]] + fb)[1..] == fb;
      }
    }
  }

  /** A newest-first sequence is determined by its tie order: two sorted
      sequences with the same tie order are equal. */
  lemma {:induction false} SortedUnique<T(!new)>(a: seq<T>, b: seq<T>, key: T -> int)
    requires SortedDesc(a, key) && SortedDesc(b, key)
    requires SameTieOrder(a, b, key)
    ensures a == b
  {
    SameTieOrderMembers(a, b, key);
    assert a == [] <==> b == [] by {
      if a != [] { assert a[0] in a; }
      if b != [] { assert b[0] in b; }
    }
    if a != [] {
      var ka, kb := key(a[0]), key(b[0]);
      FilterHead(a, KeyIs(key, ka));
      var fa := Filter(b, KeyIs(key, ka));
      assert fa[0] in fa;
      FilterHead(b, KeyIs(key, kb));
      var fb := Filter(a, KeyIs(key, kb));
      assert fb[0] in fb;
      assert ka == kb;
      SameTieOrderTail(a, b, key);
      SortedUnique(a[1..], b[1..], key);
      assert a == [a[0]] + a[1..] && b == [b[0]] + b[1..];
    }
  }

  /** Sequences with the same tie order hold the same elements. */
  lemma SameTieOrderMembers<T(!new)>(a: seq<T>, b: seq<T>, key: T -> int)
    requires SameTieOrder(a, b, key)
    ensures forall x :: x in a <==> x in b
  {
    forall x ensures x in a <==> x in b {
      var p := KeyIs(key, key(x));
      assert Filter(a, p) == Filter(b, p);
      assert x in a <==> x in Filter(a, p);
      assert x in b <==> x in Filter(b, p);
    }
  }

  /** An element that passes the filter and comes first is the first kept. */
  lemma FilterHead<T(!new)>(s: seq<T>, p: T -> bool)
    requires s != [] && p(s[0])
    ensures Filter(s, p) != [] && Filter(s, p)[0] == s[0]
  {
  }

  /** Sorting keeps the tie order (this is what stability means). */
  lemma SortDescSameTieOrder<T(!new)>(s: seq<T>, key: T -> int)
    ensures SameTieOrder(SortDesc(s, key), s, key)
  {
    forall k ensures Filter(SortDesc(s, key), KeyIs(key, k)) == Filter(s, KeyIs(key, k)) {
      SortDescStable(s, key, k);
    }
  }

  /** Sequences with the same tie order sort to the same result. */
  lemma SortDescTieOrderDetermined<T(!new)>(a: seq<T>, b: seq<T>, key: T -> int)
    requires SameTieOrder(a, b, key)
    ensures SortDesc(a, key) == SortDesc(b, key)
  {
    SortDescSameTieOrder(a, key);
    SortDescSameTieOrder(b, key);
    SortedUnique(SortDesc(a, key), SortDesc(b, key), key);
  }

  /** Appending the same elements to both sides keeps the tie order equal. */
  lemma SameTieOrderAppend<T(!new)>(a: seq<T>, b: seq<T>, c: seq<T>, key: T -> int)
    requires SameTieOrder(a, b, key)
    ensures SameTieOrder(a + c, b + c, key)
  {
    forall k ensures Filter(a + c, KeyIs(key, k)) == Filter(b + c, KeyIs(key, k)) {
      FilterAppend(a, c, KeyIs(key, k));
      FilterAppend(b, c, KeyIs(key, k));
    }
  }

  /** Equal tie order is transitive. */
  lemma SameTieOrderTrans<T(!new)>(a: seq<T>, b: seq<T>, c: seq<T>, key: T -> int)
    requires SameTieOrder(a, b, key) && SameTieOrder(b, c, key)
    ensures SameTieOrder(a, c, key)
  {
    forall k ensures Filter(a, KeyIs(key, k)) == Filter(c, KeyIs(key, k)) {
      assert Filter(a, KeyIs(key, k)) == Filter(b, KeyIs(key, k));
    }
  }

  /** Filtering by a condition every element meets keeps everything. */
  lemma {:induction false} FilterAll<T(!new)>(s: seq<T>, p: T -> bool)
    requires forall i :: 0 <= i < |s| ==> p(s[i])
    ensures Filter(s, p) == s
  {
    if s != [] {
      FilterAll(s[1..], p);
      assert s == [s[0]] + s[1..];
    }
  }
}
