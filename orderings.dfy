/** Three-way comparison results (Rust's `std::cmp::Ordering`), the `then_with`
    chaining combinator, string order, and what it means for a comparator to be
    a total preorder. */
module Orderings {

  datatype Ordering = Less | Equal | Greater

  function Flip(o: Ordering): Ordering {
    match o
    case Less => Greater
    case Equal => Equal
    case Greater => Less
  }

  /** `o.then_with(|| next)`: the second comparison only breaks ties. */
  function Then(o: Ordering, next: Ordering): Ordering {
    if o == Equal then next else o
  }

  function CmpInt(a: int, b: int): Ordering {
    if a < b then Less else if a > b then Greater else Equal
  }

  /** Lexicographic order on code points: Rust's `Ord for str` (byte order of
      UTF-8 coincides with code-point order) and Python's `str` comparison. */
  function CmpStr(a: string, b: string): Ordering {
    if |a| == 0 && |b| == 0 then Equal
    else if |a| == 0 then Less
    else if |b| == 0 then Greater
    else if a[0] < b[0] then Less
    else if a[0] > b[0] then Greater
    else CmpStr(a[1..], b[1..])
  }

  lemma {:induction false} CmpStrFlip(a: string, b: string)
    ensures CmpStr(b, a) == Flip(CmpStr(a, b))
  {
    if |a| > 0 && |b| > 0 && a[0] == b[0] {
      CmpStrFlip(a[1..], b[1..]);
    }
  }

  lemma {:induction false} CmpStrEqual(a: string, b: string)
    ensures CmpStr(a, b) == Equal <==> a == b
  {
    if |a| > 0 && |b| > 0 && a[0] == b[0] {
      CmpStrEqual(a[1..], b[1..]);
      if a[1..] == b[1..] {
        assert a == [a[0]] + a[1..] && b == [b[0]] + b[1..];
      }
    }
  }

  lemma {:induction false} CmpStrTrans(a: string, b: string, c: string)
    requires CmpStr(a, b) != Greater && CmpStr(b, c) != Greater
    ensures CmpStr(a, c) != Greater
  {
    if |a| > 0 && |b| > 0 && |c| > 0 && a[0] == b[0] == c[0] {
      CmpStrTrans(a[1..], b[1..], c[1..]);
    }
  }

  /** `cmp(b, a)` is always the mirror image of `cmp(a, b)`. */
  ghost predicate Antisymmetric<T(!new)>(cmp: (T, T) -> Ordering) {
    forall a, b :: cmp(b, a) == Flip(cmp(a, b))
  }

  /** "Not greater" is transitive. */
  ghost predicate Transitive<T(!new)>(cmp: (T, T) -> Ordering) {
    forall a, b, c :: cmp(a, b) != Greater && cmp(b, c) != Greater ==> cmp(a, c) != Greater
  }

  /** What `slice::sort_by` needs of its comparator for the result to be well defined. */
  ghost predicate TotalPreorder<T(!new)>(cmp: (T, T) -> Ordering) {
    Antisymmetric(cmp) && Transitive(cmp)
  }

  lemma CmpStrTotalPreorder()
    ensures TotalPreorder(CmpStr)
  {
    forall a, b ensures CmpStr(b, a) == Flip(CmpStr(a, b)) {
      CmpStrFlip(a, b);
    }
    forall a, b, c | CmpStr(a, b) != Greater && CmpStr(b, c) != Greater
      ensures CmpStr(a, c) != Greater
    {
      CmpStrTrans(a, b, c);
    }
  }
}
