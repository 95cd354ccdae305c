/** `slice::sort_by`, the stable sort `sort_items` applies, specified as a
    stable insertion sort over any comparator: elements that compare `Equal`
    keep their arrival order. For a total preorder its result is sorted and a
    permutation of its input. */
module Sorting {
  import opened Orderings
  import opened Seqs

  /** No element compares greater than a later one. */
  ghost predicate Sorted<T(!new)>(cmp: (T, T) -> Ordering, s: seq<T>) {
    forall i, j :: 0 <= i < j < |s| ==> cmp(s[i], s[j]) != Greater
  }

  /** Places `x` after every leading element that does not compare greater than it. */
  function Insert<T>(cmp: (T, T) -> Ordering, x: T, s: seq<T>): (r: seq<T>)
    ensures multiset(r) == multiset(s) + multiset{x}
  {
    if |s| == 0 then [x]
    else if cmp(s[0], x) == Greater then [x] + s
    else
      assert s == [s[0]] + s[1..];
      [s[0]] + Insert(cmp, x, s[1..])
  }

  /** `items.sort_by(cmp)`: insert the elements one by one, in their order. */
  function SortBy<T>(cmp: (T, T) -> Ordering, items: seq<T>): (r: seq<T>)
    ensures multiset(r) == multiset(items)
  {
    if |items| == 0 then []
    else
      assert items == items[..|items| - 1] + [items[|items| - 1]];
      Insert(cmp, items[|items| - 1], SortBy(cmp, items[..|items| - 1]))
  }

  lemma {:induction false} InsertSorted<T(!new)>(cmp: (T, T) -> Ordering, x: T, s: seq<T>)
    requires TotalPreorder(cmp)
    requires Sorted(cmp, s)
    ensures Sorted(cmp, Insert(cmp, x, s))
  {
    var r := Insert(cmp, x, s);
    if |s| == 0 {
    } else if cmp(s[0], x) == Greater {
      assert cmp(x, s[0]) == Less;
      assert r == [x] + s;
    } else {
      var rest := Insert(cmp, x, s[1..]);
      InsertSorted(cmp, x, s[1..]);
      assert r == [s[0]] + rest;
      forall j | 0 <= j < |rest| ensures cmp(s[0], rest[j]) != Greater {
        assert rest[j] in multiset(rest);
        if rest[j] != x {
          assert rest[j] in multiset(s[1..]);
          var k :| 0 <= k < |s[1..]| && s[1..][k] == rest[j];
          assert s[k + 1] == rest[j];
        }
      }
    }
  }

  /** The result of the sort is ordered by its comparator. */
  lemma {:induction false} SortBySorted<T(!new)>(cmp: (T, T) -> Ordering, items: seq<T>)
    requires TotalPreorder(cmp)
    ensures Sorted(cmp, SortBy(cmp, items))
  {
    if |items| > 0 {
      SortBySorted(cmp, items[..|items| - 1]);
      InsertSorted(cmp, items[|items| - 1], SortBy(cmp, items[..|items| - 1]));
    }
  }

  lemma {:induction false} InsertAtEnd<T>(cmp: (T, T) -> Ordering, x: T, s: seq<T>)
    requires forall i :: 0 <= i < |s| ==> cmp(s[i], x) != Greater
    ensures Insert(cmp, x, s) == s + [x]
  {
    if |s| > 0 {
      InsertAtEnd(cmp, x, s[1..]);
      assert s == [s[0]] + s[1..];
    }
  }

  /** The elements that compare `Equal` to `x`. */
  function EquivTo<T>(cmp: (T, T) -> Ordering, x: T): T -> bool {
    y => cmp(y, x) == Equal
  }

  /** Nothing passes the filter, so nothing is kept. */
  lemma {:induction false} FilterNone<T>(s: seq<T>, p: T -> bool)
    requires forall i :: 0 <= i < |s| ==> !p(s[i])
    ensures Filter(s, p) == []
  {
    if |s| > 0 {
      FilterNone(s[1..], p);
    }
  }

  /** Inserting into a sorted list puts `x` after every element equal to it. */
  lemma {:induction false} InsertStable<T(!new)>(cmp: (T, T) -> Ordering, z: T, t: seq<T>, x: T)
    requires TotalPreorder(cmp) && Sorted(cmp, t)
    ensures Filter(Insert(cmp, z, t), EquivTo(cmp, x)) ==
            Filter(t, EquivTo(cmp, x)) + (if cmp(z, x) == Equal then [z] else [])
  {
    var p := EquivTo(cmp, x);
    if |t| == 0 {
    } else if cmp(t[0], z) == Greater {
      assert Insert(cmp, z, t) == [z] + t;
      assert ([z] + t)[1..] == t;
      if cmp(z, x) == Equal {
        forall i | 0 <= i < |t| ensures !p(t[i]) {
          if i > 0 {
            assert cmp(t[0], t[i]) != Greater;
          }
          assert cmp(x, z) == Equal;
        }
        FilterNone(t, p);
      }
    } else {
      SortedTail(cmp, t);
      InsertStable(cmp, z, t[1..], x);
      var rest := Insert(cmp, z, t[1..]);
      assert Insert(cmp, z, t) == [t[0]] + rest;
      assert ([t[0]] + rest)[1..] == rest;
    }
  }

  /** `sort_by` is stable: the elements equal to any `x` keep their order. */
  lemma {:induction false} SortByStable<T(!new)>(cmp: (T, T) -> Ordering, items: seq<T>, x: T)
    requires TotalPreorder(cmp)
    ensures Filter(SortBy(cmp, items), EquivTo(cmp, x)) == Filter(items, EquivTo(cmp, x))
  {
    if |items| > 0 {
      var init := items[..|items| - 1];
      var z := items[|items| - 1];
      assert items == init + [z];
      SortByStable(cmp, init, x);
      SortBySorted(cmp, init);
      InsertStable(cmp, z, SortBy(cmp, init), x);
      FilterSnoc(init, z, EquivTo(cmp, x));
    }
  }

  /** Sorting an already sorted list leaves it as it is, order of equals included. */
  lemma {:induction false} SortBySortedIdentity<T(!new)>(cmp: (T, T) -> Ordering, items: seq<T>)
    requires Sorted(cmp, items)
    ensures SortBy(cmp, items) == items
  {
    if |items| > 0 {
      var init := items[..|items| - 1];
      var x := items[|items| - 1];
      assert items == init + [x];
      SortedInit(cmp, items);
      SortBySortedIdentity(cmp, init);
      InsertAtEnd(cmp, x, init);
      assert SortBy(cmp, items) == Insert(cmp, x, SortBy(cmp, init));
    }
  }

  lemma SortedInit<T(!new)>(cmp: (T, T) -> Ordering, items: seq<T>)
    requires Sorted(cmp, items) && |items| > 0
    ensures Sorted(cmp, items[..|items| - 1])
    ensures forall i :: 0 <= i < |items| - 1 ==> cmp(items[i], items[|items| - 1]) != Greater
  {
  }

  /** The tail of a sorted list is sorted and not below its head. */
  lemma SortedTail<T(!new)>(cmp: (T, T) -> Ordering, s: seq<T>)
    requires Sorted(cmp, s) && |s| > 0
    ensures Sorted(cmp, s[1..])
    ensures forall y :: y in s[1..] ==> cmp(s[0], y) != Greater
  {
    forall y | y in s[1..] ensures cmp(s[0], y) != Greater {
      var j :| 0 <= j < |s[1..]| && s[1..][j] == y;
      assert s[j + 1] == y;
    }
  }

  /** A head not above any element of a sorted tail keeps the list sorted. */
  lemma SortedCons<T(!new)>(cmp: (T, T) -> Ordering, x: T, t: seq<T>)
    requires Sorted(cmp, t) && forall y :: y in t ==> cmp(x, y) != Greater
    ensures Sorted(cmp, [x] + t)
  {
    var r := [x] + t;
    forall i, j | 0 <= i < j < |r| ensures cmp(r[i], r[j]) != Greater {
      assert r[j] == t[j - 1];
      if i > 0 {
        assert r[i] == t[i - 1];
      }
    }
  }

  /** Sorting twice is sorting once. */
  lemma SortByIdempotent<T(!new)>(cmp: (T, T) -> Ordering, items: seq<T>)
    requires TotalPreorder(cmp)
    ensures SortBy(cmp, SortBy(cmp, items)) == SortBy(cmp, items)
  {
    SortBySorted(cmp, items);
    SortBySortedIdentity(cmp, SortBy(cmp, items));
  }

  lemma {:induction false} InsertKeepsKeysDistinct<T, K>(cmp: (T, T) -> Ordering, x: T, s: seq<T>, key: T -> K)
    requires KeysDistinct(s, key)
    requires forall y :: y in s ==> key(y) != key(x)
    ensures KeysDistinct(Insert(cmp, x, s), key)
  {
    var r := Insert(cmp, x, s);
    if |s| == 0 {
    } else if cmp(s[0], x) == Greater {
      assert r == [x] + s;
      forall i, j | 0 <= i < j < |r| ensures key(r[i]) != key(r[j]) {
        assert r[j] == s[j - 1];
        if i > 0 {
          assert r[i] == s[i - 1];
        }
      }
    } else {
      var tail := s[1..];
      assert KeysDistinct(tail, key) by {
        forall i, j | 0 <= i < j < |tail| ensures key(tail[i]) != key(tail[j]) {
          assert tail[i] == s[i + 1] && tail[j] == s[j + 1];
        }
      }
      var rest := Insert(cmp, x, tail);
      InsertKeepsKeysDistinct(cmp, x, tail, key);
      assert r == [s[0]] + rest;
      forall j | 0 <= j < |rest| ensures key(s[0]) != key(rest[j]) {
        assert rest[j] in multiset(rest);
        if rest[j] != x {
          assert rest[j] in multiset(tail);
          var k :| 0 <= k < |tail| && tail[k] == rest[j];
          assert s[k + 1] == rest[j];
        }
      }
      forall i, j | 0 <= i < j < |r| ensures key(r[i]) != key(r[j]) {
        assert r[j] == rest[j - 1];
        if i > 0 {
          assert r[i] == rest[i - 1];
        }
      }
    }
  }

  /** The sort neither drops nor duplicates a key: distinct keys stay distinct. */
  lemma {:induction false} SortByKeepsKeysDistinct<T, K>(cmp: (T, T) -> Ordering, items: seq<T>, key: T -> K)
    requires KeysDistinct(items, key)
    ensures KeysDistinct(SortBy(cmp, items), key)
  {
    if |items| > 0 {
      var init := items[..|items| - 1];
      var x := items[|items| - 1];
      assert KeysDistinct(init, key) by {
        forall i, j | 0 <= i < j < |init| ensures key(init[i]) != key(init[j]) {
          assert init[i] == items[i] && init[j] == items[j];
        }
      }
      SortByKeepsKeysDistinct(cmp, init, key);
      var sorted := SortBy(cmp, init);
      forall y | y in sorted ensures key(y) != key(x) {
        assert y in multiset(sorted);
        assert y in multiset(init);
        var k :| 0 <= k < |init| && init[k] == y;
        assert items[k] == y;
      }
      InsertKeepsKeysDistinct(cmp, x, sorted, key);
    }
  }
}
