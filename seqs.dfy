/** Sequence queries that the source performs with `find`, `findIndex`, `filter`, `sort` and SQL
    `WHERE` / `ORDER BY` clauses. */
module Seqs {
  import opened Wrappers

  /** Index of the first element satisfying `p` (`Array.prototype.findIndex`, with None for -1). */
  function FirstIndex<T>(s: seq<T>, p: T -> bool): (r: Option<nat>)
    ensures r.Some? ==> r.value < |s| && p(s[r.value])
    ensures r.Some? ==> forall j :: 0 <= j < r.value ==> !p(s[j])
    ensures r.None? <==> forall j :: 0 <= j < |s| ==> !p(s[j])
  {
    if |s| == 0 then None
    else if p(s[0]) then Some(0)
    else
      match FirstIndex(s[1..], p)
      case None => None
      case Some(k) => Some(k + 1)
  }

  /** The first element satisfying `p` (`Array.prototype.find`, or the first row of a `SELECT`). */
  function First<T>(s: seq<T>, p: T -> bool): (r: Option<T>)
    ensures r.Some? ==> r.value in s && p(r.value)
    ensures r.Some? ==> FirstIndex(s, p).Some? && r.value == s[FirstIndex(s, p).value]
    ensures r.None? <==> forall x :: x in s ==> !p(x)
  {
    match FirstIndex(s, p)
    case None => None
    case Some(i) => Some(s[i])
  }

  /** Inserting an element that fails `p` anywhere does not change which element is found first. */
  lemma FirstSkipsNonMatching<T>(pre: seq<T>, x: T, post: seq<T>, p: T -> bool)
    requires !p(x)
    ensures First(pre + [x] + post, p) == First(pre + post, p)
  {
    var s, t := pre + [x] + post, pre + post;
    var n := |pre|;
    assert forall j :: 0 <= j < n ==> s[j] == t[j];
    assert s[n] == x;
    assert forall j :: n < j < |s| ==> s[j] == t[j - 1];
    var fs, ft := FirstIndex(s, p), FirstIndex(t, p);
    if ft.None? {
      assert forall j :: 0 <= j < |s| ==> !p(s[j]) by {
        forall j | 0 <= j < |s| ensures !p(s[j]) {
          if j < n { assert s[j] == t[j]; } else if j > n { assert s[j] == t[j - 1]; }
        }
      }
      assert fs.None?;
    } else {
      var k := ft.value;
      var target := if k < n then k else k + 1;
      assert s[target] == t[k];
      assert fs.Some?;
      assert fs.value == target;
    }
  }

  /** The elements satisfying `p`, in their original order (`filter`, or a `SELECT ... WHERE`). */
  function Filter<T(!new)>(s: seq<T>, p: T -> bool): (r: seq<T>)
    ensures |r| <= |s|
    ensures forall x :: x in r <==> x in s && p(x)
  {
    if |s| == 0 then []
    else if p(s[0]) then [s[0]] + Filter(s[1..], p)
    else Filter(s[1..], p)
  }

  /** `Filter` keeps each element that satisfies `p` as often as it occurs, and drops the rest. */
  lemma {:induction false} FilterMultiplicity<T(!new)>(s: seq<T>, p: T -> bool)
    ensures forall x :: multiset(Filter(s, p))[x] == if p(x) then multiset(s)[x] else 0
  {
    if |s| > 0 {
      assert s == [s[0]] + s[1..];
      FilterMultiplicity(s[1..], p);
    }
  }

  /** `rel` holds between every earlier and every later element of `s`. */
  ghost predicate Pairwise<T>(s: seq<T>, rel: (T, T) -> bool) {
    forall i, j :: 0 <= i < j < |s| ==> rel(s[i], s[j])
  }

  /** Filtering keeps the order of what it keeps, so a relation between every earlier and later
      element of `s` still holds in `Filter(s, p)`. */
  lemma {:induction false} FilterPairwise<T(!new)>(s: seq<T>, p: T -> bool, rel: (T, T) -> bool)
    requires Pairwise(s, rel)
    ensures Pairwise(Filter(s, p), rel)
  {
    if |s| > 0 {
      var rest := s[1..];
      assert Pairwise(rest, rel) by {
        forall i, j | 0 <= i < j < |rest| ensures rel(rest[i], rest[j]) {
          assert rest[i] == s[i + 1] && rest[j] == s[j + 1];
        }
      }
      FilterPairwise(rest, p, rel);
      var fr := Filter(rest, p);
      if p(s[0]) {
        var r := [s[0]] + fr;
        forall j | 0 < j < |r| ensures rel(r[0], r[j]) {
          assert r[j] == fr[j - 1];
          assert fr[j - 1] in fr;
          var k :| 0 <= k < |rest| && rest[k] == r[j];
          assert s[k + 1] == r[j];
        }
        forall i, j | 0 < i < j < |r| ensures rel(r[i], r[j]) {
          assert r[i] == fr[i - 1] && r[j] == fr[j - 1];
        }
        assert Filter(s, p) == r;
      } else {
        assert Filter(s, p) == fr;
      }
    }
  }

  /** How many elements satisfy `p` (`filter(p).length`). */
  function Count<T(!new)>(s: seq<T>, p: T -> bool): (n: nat)
    ensures n <= |s|
    ensures n == 0 <==> forall x :: x in s ==> !p(x)
  {
    var r := Filter(s, p);
    assert |r| > 0 ==> r[0] in r;
    |r|
  }

  lemma {:induction false} FilterSnoc<T(!new)>(s: seq<T>, x: T, p: T -> bool)
    ensures Filter(s + [x], p) == Filter(s, p) + (if p(x) then [x] else [])
  {
    if |s| == 0 {
      assert s + [x] == [x];
      assert [x][1..] == [];
    } else {
      assert (s + [x])[1..] == s[1..] + [x];
      FilterSnoc(s[1..], x, p);
    }
  }

  /** Appending an element adds one to the count exactly when it satisfies `p`. */
  lemma CountSnoc<T(!new)>(s: seq<T>, x: T, p: T -> bool)
    ensures Count(s + [x], p) == Count(s, p) + (if p(x) then 1 else 0)
  {
    FilterSnoc(s, x, p);
  }

  /** Keys never decrease from left to right. */
  predicate SortedBy<T>(s: seq<T>, key: T -> int) {
    forall i, j :: 0 <= i < j < |s| ==> key(s[i]) <= key(s[j])
  }

  /** Inserts `x` before the first element whose key is not below its own. */
  function InsertBy<T>(x: T, s: seq<T>, key: T -> int): (r: seq<T>)
    ensures multiset(r) == multiset(s) + multiset{x}
  {
    if |s| == 0 then [x]
    else if key(x) <= key(s[0]) then [x] + s
    else
      assert s == [s[0]] + s[1..];
      [s[0]] + InsertBy(x, s[1..], key)
  }

  lemma {:induction false} InsertBySorted<T>(x: T, s: seq<T>, key: T -> int)
    requires SortedBy(s, key)
    ensures SortedBy(InsertBy(x, s, key), key)
  {
    if |s| > 0 && key(x) > key(s[0]) {
      var rest := InsertBy(x, s[1..], key);
      InsertBySorted(x, s[1..], key);
      forall i | 0 <= i < |rest|
        ensures key(s[0]) <= key(rest[i])
      {
        assert rest[i] in multiset(rest);
        if rest[i] != x {
          assert rest[i] in multiset(s[1..]);
          var j :| 0 <= j < |s[1..]| && s[1..][j] == rest[i];
          assert s[1..][j] == s[j + 1];
        }
      }
    }
  }

  /** A sort by `key`: the `ORDER BY` of a query and the client-side `sort` by `orderIndex`.
      Insertion is stable: elements with equal keys keep their original order, as with the
      stable `Array.prototype.sort` of ECMAScript that the client uses. SQLite promises no order
      among rows with equal keys; for queries the tie order is this model's choice. */
  function SortBy<T(!new)>(s: seq<T>, key: T -> int): (r: seq<T>)
    ensures SortedBy(r, key)
    ensures multiset(r) == multiset(s)
    ensures |r| == |s|
    ensures forall x :: x in r <==> x in s
  {
    if |s| == 0 then []
    else
      var tail := SortBy(s[1..], key);
      InsertBySorted(s[0], tail, key);
      var r := InsertBy(s[0], tail, key);
      assert s == [s[0]] + s[1..];
      assert forall x :: x in r <==> x in multiset(r);
      assert forall x :: x in s <==> x in multiset(s);
      r
  }

  /** A list already in key order, ties included, comes back unchanged. */
  lemma {:induction false} SortBySortedUnchanged<T(!new)>(s: seq<T>, key: T -> int)
    requires SortedBy(s, key)
    ensures SortBy(s, key) == s
  {
    if |s| > 0 {
      assert SortedBy(s[1..], key) by {
        forall i, j | 0 <= i < j < |s[1..]| ensures key(s[1..][i]) <= key(s[1..][j]) {
          assert s[1..][i] == s[i + 1] && s[1..][j] == s[j + 1];
        }
      }
      SortBySortedUnchanged(s[1..], key);
      assert s == [s[0]] + s[1..];
    }
  }

  /** No element occurs twice. */
  ghost predicate Distinct<T>(s: seq<T>) {
    forall i, j :: 0 <= i < j < |s| ==> s[i] != s[j]
  }

  /** A list without repeats has as many distinct elements as entries. */
  lemma {:induction false} DistinctCard<T>(s: seq<T>)
    requires Distinct(s)
    ensures |set x | x in s| == |s|
  {
    if |s| > 0 {
      var rest := s[1..];
      DistinctCard(rest);
      assert (set x | x in s) == {s[0]} + (set x | x in rest);
      assert s[0] !in (set x | x in rest);
    }
  }

  lemma {:induction false} SubsetCard<T>(a: set<T>, b: set<T>)
    requires a <= b
    ensures |a| <= |b|
  {
    if a != {} {
      var x :| x in a;
      SubsetCard(a - {x}, b - {x});
    }
  }

  /** A repeat-free list whose elements all occur in another repeat-free list is no longer. */
  lemma DistinctWithin<T>(s: seq<T>, t: seq<T>)
    requires Distinct(s) && Distinct(t)
    requires forall x :: x in s ==> x in t
    ensures |s| <= |t|
  {
    DistinctCard(s);
    DistinctCard(t);
    SubsetCard(set x | x in s, set x | x in t);
  }
}
