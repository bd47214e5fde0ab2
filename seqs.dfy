/** Sequence combinators shared by the model: JavaScript's `filter` and a
    stable sort by an integer key (`Array.prototype.sort` with a numeric
    comparator is stable since ECMAScript 2019). */
module Seqs {

  /** `Array.prototype.filter`. */
  function Filter<T(!new)>(s: seq<T>, p: T -> bool): (r: seq<T>)
    ensures |r| <= |s|
    ensures forall x :: x in r <==> x in s && p(x)
    ensures forall i :: 0 <= i < |r| ==> p(r[i])
    ensures multiset(r) <= multiset(s)
  {
    if s == [] then []
    else
      assert s == [s[0]] + s[1..];
      if p(s[0]) then [s[0]] + Filter(s[1..], p)
      else Filter(s[1..], p)
  }

  /** Filtering distributes over concatenation. */
  lemma {:induction false} FilterAppend<T(!new)>(a: seq<T>, b: seq<T>, p: T -> bool)
    ensures Filter(a + b, p) == Filter(a, p) + Filter(b, p)
  {
    if a == [] {
      assert a + b == b;
    } else {
      assert (a + b)[1..] == a[1..] + b;
      FilterAppend(a[1..], b, p);
    }
  }

  /** A filter that keeps everything is the identity. */
  lemma {:induction false} FilterAll<T(!new)>(s: seq<T>, p: T -> bool)
    requires forall x :: x in s ==> p(x)
    ensures Filter(s, p) == s
  {
    if s != [] {
      FilterAll(s[1..], p);
    }
  }

  /** Filtering keeps every occurrence of an element that passes and drops
      every one that fails. */
  lemma {:induction false} FilterCount<T(!new)>(s: seq<T>, p: T -> bool, x: T)
    ensures multiset(Filter(s, p))[x] == if p(x) then multiset(s)[x] else 0
  {
    if s != [] {
      FilterCount(s[1..], p, x);
      assert s == [s[0]] + s[1..];
      FilterAppend([s[0]], s[1..], p);
      assert Filter([s[0]], p) == if p(s[0]) then [s[0]] else [] by {
        assert [s[0]][1..] == [];
      }
    }
  }

  /** Filtering out an element that is present shortens the sequence. */
  lemma {:induction false} FilterShrinks<T(!new)>(s: seq<T>, p: T -> bool, k: nat)
    requires k < |s| && !p(s[k])
    ensures |Filter(s, p)| < |s|
  {
    if k > 0 {
      FilterShrinks(s[1..], p, k - 1);
    }
  }

  /** Predicates that agree on the elements of `s` filter it alike. */
  lemma {:induction false} FilterSame<T(!new)>(s: seq<T>, p: T -> bool, q: T -> bool)
    requires forall x :: x in s ==> p(x) == q(x)
    ensures Filter(s, p) == Filter(s, q)
  {
    if s != [] {
      assert forall x :: x in s[1..] ==> x in s;
      FilterSame(s[1..], p, q);
    }
  }

  /** Filtering twice with the same predicate changes nothing more. */
  lemma FilterIdempotent<T(!new)>(s: seq<T>, p: T -> bool)
    ensures Filter(Filter(s, p), p) == Filter(s, p)
  {
    FilterAll(Filter(s, p), p);
  }

  /** The number of elements that satisfy `p` (`filter(p).length`). */
  function CountWhere<T(!new)>(s: seq<T>, p: T -> bool): (n: nat)
    ensures n <= |s|
    ensures n == 0 <==> forall x :: x in s ==> !p(x)
  {
    var r := Filter(s, p);
    assert r != [] ==> r[0] in r;
    |r|
  }

  ghost predicate SortedBy<T>(s: seq<T>, key: T -> int)
  {
    forall i, j :: 0 <= i < j < |s| ==> key(s[i]) <= key(s[j])
  }

  /** Inserts `x` after every element whose key is at most `key(x)`, so that
      equal keys keep their order of arrival. */
  function InsertAfter<T>(x: T, s: seq<T>, key: T -> int): (r: seq<T>)
    requires SortedBy(s, key)
    ensures multiset(r) == multiset(s) + multiset{x}
    ensures |r| == |s| + 1
    ensures forall y :: y in r ==> y == x || y in s
    ensures SortedBy(r, key)
  {
    if s == [] then [x]
    else if key(x) < key(s[0]) then [x] + s
    else
      var t := InsertAfter(x, s[1..], key);
      assert s == [s[0]] + s[1..];
      assert forall j :: 0 <= j < |t| ==> key(s[0]) <= key(t[j]) by {
        forall j | 0 <= j < |t|
          ensures key(s[0]) <= key(t[j])
        {
          assert t[j] in t;
          if t[j] != x {
            var k :| 0 <= k < |s[1..]| && s[1..][k] == t[j];
            assert s[k + 1] == t[j];
          }
        }
      }
      [s[0]] + t
  }

  /** Stable insertion sort by an integer key. */
  function SortBy<T>(s: seq<T>, key: T -> int): (r: seq<T>)
    ensures multiset(r) == multiset(s)
    ensures |r| == |s|
    ensures SortedBy(r, key)
  {
    if s == [] then []
    else
      var init := s[..|s| - 1];
      assert s == init + [s[|s| - 1]];
      InsertAfter(s[|s| - 1], SortBy(init, key), key)
  }

  /** The head of a sorted sequence carries the least key of all its elements. */
  lemma SortedHeadIsLeast<T>(s: seq<T>, key: T -> int, x: T)
    requires SortedBy(s, key) && x in s
    ensures key(s[0]) <= key(x)
  {
    var i :| 0 <= i < |s| && s[i] == x;
    if i > 0 {
      assert key(s[0]) <= key(s[i]);
    }
  }

  /** The position of the first occurrence of `x`. */
  function Position<T(==)>(s: seq<T>, x: T): (k: nat)
    requires x in s
    ensures k < |s| && s[k] == x
    ensures forall j :: 0 <= j < k ==> s[j] != x
  {
    if s[0] == x then 0 else 1 + Position(s[1..], x)
  }

  /** An element of `a` is found in `a + b` where it is found in `a`. */
  lemma {:induction false} PositionAppend<T>(a: seq<T>, b: seq<T>, x: T)
    requires x in a
    ensures Position(a + b, x) == Position(a, x)
  {
    if a[0] != x {
      assert (a + b)[1..] == a[1..] + b;
      PositionAppend(a[1..], b, x);
    }
  }

  /** The members of a non-empty sequence: those of its initial part and its
      last element. */
  lemma InitLastMembers<T>(s: seq<T>)
    requires s != []
    ensures forall x :: x in s <==> x in s[..|s| - 1] || x == s[|s| - 1]
  {
    assert s == s[..|s| - 1] + [s[|s| - 1]];
  }

  /** The head of a non-empty filter is the first element that passes. */
  lemma {:induction false} FilterHead<T(!new)>(s: seq<T>, p: T -> bool) returns (j: nat)
    requires Filter(s, p) != []
    ensures j < |s| && s[j] == Filter(s, p)[0] && p(s[j])
    ensures forall i :: 0 <= i < j ==> !p(s[i])
  {
    if p(s[0]) {
      j := 0;
    } else {
      var k := FilterHead(s[1..], p);
      j := k + 1;
    }
  }

  /** A filter that rejects everything yields nothing. */
  lemma FilterNone<T(!new)>(s: seq<T>, p: T -> bool)
    requires forall x :: x in s ==> !p(x)
    ensures Filter(s, p) == []
  {
    if Filter(s, p) != [] {
      assert Filter(s, p)[0] in Filter(s, p);
    }
  }

  /** Filtering a non-empty sequence: its head, then the rest. */
  lemma FilterCons<T(!new)>(s: seq<T>, p: T -> bool)
    requires s != []
    ensures Filter(s, p) == Filter([s[0]], p) + Filter(s[1..], p)
  {
    var h := [s[0]];
    assert h[1..] == [];
    assert Filter(h, p) == if p(s[0]) then [s[0]] else [];
  }

  /** Filtering a one-element sequence. */
  lemma FilterSingle<T(!new)>(x: T, p: T -> bool)
    ensures Filter([x], p) == if p(x) then [x] else []
  {
    assert [x][1..] == [];
  }

  /** Filtering the last element of a non-empty sequence. */
  lemma FilterSnoc<T(!new)>(s: seq<T>, p: T -> bool)
    requires s != []
    ensures Filter(s, p) == Filter(s[..|s| - 1], p) + if p(s[|s| - 1]) then [s[|s| - 1]] else []
  {
    FilterAppend(s[..|s| - 1], [s[|s| - 1]], p);
    FilterSingle(s[|s| - 1], p);
    assert s[..|s| - 1] + [s[|s| - 1]] == s;
  }

  /** Putting back the head of `s` in front of `t`, where `t` filters to the
      filter of the rest of `s` followed by `e`. */
  lemma FilterPastHead<T(!new)>(s: seq<T>, t: seq<T>, e: seq<T>, p: T -> bool)
    requires s != [] && Filter(t, p) == Filter(s[1..], p) + e
    ensures Filter([s[0]] + t, p) == Filter(s, p) + e
  {
    FilterAppend([s[0]], t, p);
    FilterCons(s, p);
    AppendAssoc(Filter([s[0]], p), Filter(s[1..], p), e);
  }

  lemma AppendAssoc<T>(a: seq<T>, b: seq<T>, c: seq<T>)
    ensures a + (b + c) == (a + b) + c
  {
  }

  /** An element whose key is below every key of a sorted sequence is the
      only one of its key once put in front. */
  lemma InsertBeforeHead<T(!new)>(x: T, s: seq<T>, key: T -> int, k: int, p: T -> bool)
    requires SortedBy(s, key) && s != [] && key(x) < key(s[0])
    requires forall y :: p(y) == (key(y) == k)
    ensures Filter([x] + s, p) == Filter(s, p) + (if p(x) then [x] else [])
  {
    FilterAppend([x], s, p);
    FilterSingle(x, p);
    if p(x) {
      forall y | y in s ensures !p(y) {
        SortedHeadIsLeast(s, key, y);
      }
      FilterNone(s, p);
    }
  }

  /** Inserting into a sorted sequence puts `x` after every element of equal
      key: restricted to one key, the insertion is an append. */
  lemma {:induction false} InsertAfterOneKey<T(!new)>(x: T, s: seq<T>, key: T -> int, k: int, p: T -> bool)
    requires SortedBy(s, key)
    requires forall y :: p(y) == (key(y) == k)
    ensures Filter(InsertAfter(x, s, key), p) == Filter(s, p) + (if p(x) then [x] else [])
  {
    if s == [] {
      FilterSingle(x, p);
    } else if key(x) < key(s[0]) {
      InsertBeforeHead(x, s, key, k, p);
    } else {
      InsertAfterOneKey(x, s[1..], key, k, p);
      FilterPastHead(s, InsertAfter(x, s[1..], key), if p(x) then [x] else [], p);
    }
  }

  /** `SortBy` is stable: the elements of any one key keep their order. */
  lemma {:induction false} SortByStable<T(!new)>(s: seq<T>, key: T -> int, k: int, p: T -> bool)
    requires forall y :: p(y) == (key(y) == k)
    ensures Filter(SortBy(s, key), p) == Filter(s, p)
  {
    if s != [] {
      var init := s[..|s| - 1];
      SortByStable(init, key, k, p);
      InsertAfterOneKey(s[|s| - 1], SortBy(init, key), key, k, p);
      FilterSnoc(s, p);
    }
  }


  /** The head of a sorted sequence is the first element of the least key:
      every element before it in the input has a greater key. */
  lemma SortByHead<T(!new)>(s: seq<T>, key: T -> int) returns (j: nat)
    requires s != []
    ensures j < |s| && SortBy(s, key)[0] == s[j]
    ensures forall i :: 0 <= i < j ==> key(s[i]) > key(s[j])
  {
    var sorted := SortBy(s, key);
    var k := key(sorted[0]);
    var same := (y: T) => key(y) == k;
    assert Filter(sorted, same)[0] == sorted[0] by {
      FilterCons(sorted, same);
      FilterSingle(sorted[0], same);
    }
    SortByStable(s, key, k, same);
    j := FilterHead(s, same);
    forall i | 0 <= i < j ensures key(s[i]) > k {
      assert s[i] in multiset(sorted);
      SortedHeadIsLeast(sorted, key, s[i]);
    }
  }
}
