/** Order-preserving filtering of sequences (iterator `filter` + `collect`, a
    Python list comprehension with a condition). */
module Seqs {

  /** The elements of `s` that satisfy `p`, in their order. */
  function Filter<T>(s: seq<T>, p: T -> bool): (r: seq<T>)
    ensures |r| <= |s|
    ensures forall i :: 0 <= i < |r| ==> p(r[i]) && r[i] in s
    ensures forall x :: x in s && p(x) ==> x in r
  {
    if |s| == 0 then []
    else if p(s[0]) then [s[0]] + Filter(s[1..], p)
    else Filter(s[1..], p)
  }

  /** The position of the first element of `s` that satisfies `p`, or `|s|`. */
  function FirstWhere<T>(s: seq<T>, p: T -> bool): (r: nat)
    ensures r <= |s|
    ensures r < |s| ==> p(s[r])
    ensures forall j :: 0 <= j < r ==> !p(s[j])
  {
    if |s| == 0 then 0
    else if p(s[0]) then 0
    else
      var k := FirstWhere(s[1..], p);
      assert forall j :: 1 <= j <= k ==> s[j] == s[1..][j - 1];
      1 + k
  }

  /** The search loop for the first element that satisfies `p`. */
  method FindFirst<T>(s: seq<T>, p: T -> bool) returns (r: nat)
    ensures r == FirstWhere(s, p)
  {
    r := |s|;
    var i := 0;
    while i < |s|
      invariant 0 <= i <= |s| && r == |s|
      invariant forall j :: 0 <= j < i ==> !p(s[j])
    {
      if p(s[i]) {
        r := i;
        break;
      }
      i := i + 1;
    }
    FirstWhereUnique(s, p, r);
  }

  /** Only the first satisfying position, or `|s|` when there is none, is `FirstWhere`. */
  lemma FirstWhereUnique<T>(s: seq<T>, p: T -> bool, k: nat)
    requires k <= |s| && (k < |s| ==> p(s[k]))
    requires forall j :: 0 <= j < k ==> !p(s[j])
    ensures k == FirstWhere(s, p)
  {
  }

  /** No two elements of `s` share a key. */
  ghost predicate KeysDistinct<T, K>(s: seq<T>, key: T -> K) {
    forall i, j :: 0 <= i < j < |s| ==> key(s[i]) != key(s[j])
  }

  /** Distinct keys stay distinct under filtering. */
  lemma {:induction false} FilterKeepsKeysDistinct<T, K>(s: seq<T>, p: T -> bool, key: T -> K)
    requires KeysDistinct(s, key)
    ensures KeysDistinct(Filter(s, p), key)
  {
    if |s| > 0 {
      var tail := s[1..];
      KeysDistinctTail(s, key);
      FilterKeepsKeysDistinct(tail, p, key);
      if p(s[0]) {
        var ft := Filter(tail, p);
        forall j | 0 <= j < |ft| ensures key(s[0]) != key(ft[j]) {
          var k :| 0 <= k < |tail| && tail[k] == ft[j];
          assert s[k + 1] == ft[j];
        }
        assert Filter(s, p) == [s[0]] + ft;
        KeysDistinctCons(s[0], ft, key);
      }
    }
  }

  lemma KeysDistinctTail<T, K>(s: seq<T>, key: T -> K)
    requires |s| > 0 && KeysDistinct(s, key)
    ensures KeysDistinct(s[1..], key)
  {
    var tail := s[1..];
    forall i, j | 0 <= i < j < |tail| ensures key(tail[i]) != key(tail[j]) {
      assert tail[i] == s[i + 1] && tail[j] == s[j + 1];
    }
  }

  lemma KeysDistinctCons<T, K>(x: T, s: seq<T>, key: T -> K)
    requires KeysDistinct(s, key) && forall j :: 0 <= j < |s| ==> key(x) != key(s[j])
    ensures KeysDistinct([x] + s, key)
  {
    var r := [x] + s;
    forall i, j | 0 <= i < j < |r| ensures key(r[i]) != key(r[j]) {
      assert r[j] == s[j - 1];
      if i > 0 {
        assert r[i] == s[i - 1];
      }
    }
  }

  /** Filtering a sequence extended by one element extends the filtered sequence by that element when it passes. */
  lemma {:induction false} FilterSnoc<T>(s: seq<T>, x: T, p: T -> bool)
    ensures Filter(s + [x], p) == Filter(s, p) + (if p(x) then [x] else [])
  {
    if |s| == 0 {
      assert s + [x] == [x];
    } else {
      assert (s + [x])[1..] == s[1..] + [x];
      FilterSnoc(s[1..], x, p);
    }
  }
}
