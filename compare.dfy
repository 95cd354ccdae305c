/** The comparators the desktop list is sorted with (the `compare_*` family and
    `lexical_order`), and the proof that each is a total preorder, so that
    `sort_by` has a well-defined result. Each comparator is shown equal to the
    lexicographic comparison of a key tuple, the same shape the web front end
    sorts by. */
module Compare {
  import opened Wrappers
  import opened Text
  import opened Orderings
  import opened Dates
  import opened Tasks
  import SortModes

  /** `lexical_order`: compare the ASCII-lower-cased strings. */
  function LexicalOrder(a: string, b: string): Ordering {
    CmpStr(Lower(a), Lower(b))
  }

  /** Strings that differ only in ASCII case, and only those, compare `Equal`. */
  lemma LexicalOrderEqual(a: string, b: string)
    ensures LexicalOrder(a, b) == Equal <==> Lower(a) == Lower(b)
  {
    CmpStrEqual(Lower(a), Lower(b));
  }

  /** `compare_option_str`: a present value sorts before an absent one. */
  function CompareOptionStr(a: Option<string>, b: Option<string>): (r: Ordering)
    ensures a.Some? && b.None? ==> r == Less
    ensures a.None? && b.Some? ==> r == Greater
    ensures a.None? && b.None? ==> r == Equal
    ensures a.Some? && b.Some? ==> r == LexicalOrder(a.value, b.value)
  {
    match (a, b)
    case (Some(x), Some(y)) => LexicalOrder(x, y)
    case (Some(_), None) => Less
    case (None, Some(_)) => Greater
    case (None, None) => Equal
  }

  /** `compare_option_date`: an absent date sorts before a present one. */
  function CompareOptionDate(a: Option<Date>, b: Option<Date>): (r: Ordering)
    ensures a.None? && b.Some? ==> r == Less
    ensures a.Some? && b.None? ==> r == Greater
    ensures a.None? && b.None? ==> r == Equal
    ensures a.Some? && b.Some? ==> r == CmpDate(a.value, b.value)
  {
    match (a, b)
    case (Some(x), Some(y)) => CmpDate(x, y)
    case (Some(_), None) => Greater
    case (None, Some(_)) => Less
    case (None, None) => Equal
  }

  /** `compare_by_project`: project, then section, title, context. */
  function CompareByProject(a: TodoItem, b: TodoItem): Ordering {
    Then(CompareOptionStr(a.project, b.project),
    Then(LexicalOrder(a.section, b.section),
    Then(LexicalOrder(a.title, b.title),
         CompareOptionStr(a.context, b.context))))
  }

  /** `compare_by_context`: context, then section, title, project. */
  function CompareByContext(a: TodoItem, b: TodoItem): Ordering {
    Then(CompareOptionStr(a.context, b.context),
    Then(LexicalOrder(a.section, b.section),
    Then(LexicalOrder(a.title, b.title),
         CompareOptionStr(a.project, b.project))))
  }

  /** `compare_by_due`: due date (undated first), then the project order. */
  function CompareByDue(a: TodoItem, b: TodoItem): Ordering {
    Then(CompareOptionDate(a.due, b.due), CompareByProject(a, b))
  }

  /** The comparator `sort_items` picks for a mode. */
  function CompareIn(mode: SortModes.SortMode, a: TodoItem, b: TodoItem): Ordering {
    match mode
    case Topic => CompareByProject(a, b)
    case Location => CompareByContext(a, b)
    case Date => CompareByDue(a, b)
  }

  // ---------------------------------------------------------------------
  // Key tuples: a comparator that compares keys lexicographically.

  /** One component of a sort-key tuple. */
  datatype KeyPart = Num(n: int) | Str(s: string) | Day(d: Date)

  function Rank(p: KeyPart): int {
    match p
    case Num(_) => 0
    case Str(_) => 1
    case Day(_) => 2
  }

  function CmpPart(x: KeyPart, y: KeyPart): Ordering {
    match (x, y)
    case (Num(a), Num(b)) => CmpInt(a, b)
    case (Str(a), Str(b)) => CmpStr(a, b)
    case (Day(a), Day(b)) => CmpDate(a, b)
    case _ => CmpInt(Rank(x), Rank(y))
  }

  /** Tuple comparison: component by component, a proper prefix first. */
  function CmpKey(k: seq<KeyPart>, l: seq<KeyPart>): Ordering {
    if |k| == 0 && |l| == 0 then Equal
    else if |k| == 0 then Less
    else if |l| == 0 then Greater
    else Then(CmpPart(k[0], l[0]), CmpKey(k[1..], l[1..]))
  }

  lemma CmpPartFacts(x: KeyPart, y: KeyPart, z: KeyPart)
    ensures CmpPart(y, x) == Flip(CmpPart(x, y))
    ensures CmpPart(x, y) == Equal <==> x == y
    ensures CmpPart(x, y) != Greater && CmpPart(y, z) != Greater ==> CmpPart(x, z) != Greater
  {
    match (x, y, z)
    case (Str(a), Str(b), Str(c)) =>
      CmpStrFlip(a, b);
      CmpStrEqual(a, b);
      if CmpStr(a, b) != Greater && CmpStr(b, c) != Greater {
        CmpStrTrans(a, b, c);
      }
    case (Str(a), Str(b), _) =>
      CmpStrFlip(a, b);
      CmpStrEqual(a, b);
    case (Day(a), Day(b), Day(c)) =>
      CmpDateFacts(a, b, c);
    case (Day(a), Day(b), _) =>
      CmpDateFacts(a, b, a);
    case _ =>
  }

  lemma {:induction false} CmpKeyFacts(k: seq<KeyPart>, l: seq<KeyPart>, m: seq<KeyPart>)
    ensures CmpKey(l, k) == Flip(CmpKey(k, l))
    ensures CmpKey(k, l) == Equal <==> k == l
    ensures CmpKey(k, l) != Greater && CmpKey(l, m) != Greater ==> CmpKey(k, m) != Greater
  {
    if |k| > 0 && |l| > 0 {
      CmpPartFacts(k[0], l[0], if |m| > 0 then m[0] else l[0]);
      CmpPartFacts(l[0], k[0], k[0]);
      CmpKeyFacts(k[1..], l[1..], if |m| > 0 then m[1..] else l[1..]);
      if |m| > 0 {
        CmpPartFacts(l[0], m[0], k[0]);
        CmpPartFacts(m[0], k[0], l[0]);
        CmpPartFacts(k[0], m[0], l[0]);
        CmpPartFacts(m[0], l[0], k[0]);
      }
      if k[1..] == l[1..] && k[0] == l[0] {
        assert k == [k[0]] + k[1..] && l == [l[0]] + l[1..];
      }
    }
  }

  function OptKey(o: Option<string>): seq<KeyPart> {
    match o
    case Some(s) => [Num(0), Str(Lower(s))]
    case None => [Num(1), Str("")]
  }

  /** Key of the project order: (has project, project, section, title, has context, context). */
  function ProjectKey(t: TodoItem): seq<KeyPart> {
    OptKey(t.project) + [Str(Lower(t.section)), Str(Lower(t.title))] + OptKey(t.context)
  }

  /** Key of the context order: (has context, context, section, title, has project, project). */
  function ContextKey(t: TodoItem): seq<KeyPart> {
    OptKey(t.context) + [Str(Lower(t.section)), Str(Lower(t.title))] + OptKey(t.project)
  }

  /** Key of the date order: (has due, due, project key); undated keys hold 0001-01-01. */
  function DueKey(t: TodoItem): seq<KeyPart> {
    (match t.due
     case None => [Num(0), Day(Date(1, 1, 1))]
     case Some(d) => [Num(1), Day(d)]) + ProjectKey(t)
  }

  function KeyIn(mode: SortModes.SortMode, t: TodoItem): seq<KeyPart> {
    match mode
    case Topic => ProjectKey(t)
    case Location => ContextKey(t)
    case Date => DueKey(t)
  }

  lemma {:induction false} CmpKeyAppend(k1: seq<KeyPart>, k2: seq<KeyPart>, l1: seq<KeyPart>, l2: seq<KeyPart>)
    requires |k1| == |l1|
    ensures CmpKey(k1 + k2, l1 + l2) == Then(CmpKey(k1, l1), CmpKey(k2, l2))
  {
    if |k1| > 0 {
      assert (k1 + k2)[1..] == k1[1..] + k2;
      assert (l1 + l2)[1..] == l1[1..] + l2;
      CmpKeyAppend(k1[1..], k2, l1[1..], l2);
      ThenAssoc(CmpPart(k1[0], l1[0]), CmpKey(k1[1..], l1[1..]), CmpKey(k2, l2));
    } else {
      assert k1 + k2 == k2 && l1 + l2 == l2;
    }
  }

  lemma OptKeyOrder(a: Option<string>, b: Option<string>)
    ensures CmpKey(OptKey(a), OptKey(b)) == CompareOptionStr(a, b)
  {
    var k, l := OptKey(a), OptKey(b);
    CmpKeyPair(k[0], k[1], l[0], l[1]);
    assert k == [k[0], k[1]] && l == [l[0], l[1]];
    if a.None? && b.None? {
      CmpStrEqual("", "");
    }
  }

  lemma CmpKeyPair(x1: KeyPart, x2: KeyPart, y1: KeyPart, y2: KeyPart)
    ensures CmpKey([x1, x2], [y1, y2]) == Then(CmpPart(x1, y1), CmpPart(x2, y2))
  {
    assert [x1, x2][1..] == [x2] && [y1, y2][1..] == [y2];
    assert [x2][1..] == [] && [y2][1..] == [];
    assert CmpKey([x2], [y2]) == Then(CmpPart(x2, y2), CmpKey([], [])) == CmpPart(x2, y2);
  }

  lemma ThenAssoc(o1: Ordering, o2: Ordering, o3: Ordering)
    ensures Then(Then(o1, o2), o3) == Then(o1, Then(o2, o3))
  {
  }

  lemma StrPairOrder(a: string, b: string, c: string, d: string)
    ensures CmpKey([Str(Lower(a)), Str(Lower(b))], [Str(Lower(c)), Str(Lower(d))])
            == Then(LexicalOrder(a, c), LexicalOrder(b, d))
  {
    CmpKeyPair(Str(Lower(a)), Str(Lower(b)), Str(Lower(c)), Str(Lower(d)));
  }

  /** `compare_by_project` is the key comparison of `ProjectKey`. */
  lemma CompareByProjectIsKeyOrder(a: TodoItem, b: TodoItem)
    ensures CompareByProject(a, b) == CmpKey(ProjectKey(a), ProjectKey(b))
  {
    var mid := [Str(Lower(a.section)), Str(Lower(a.title))];
    var midB := [Str(Lower(b.section)), Str(Lower(b.title))];
    CmpKeyAppend(OptKey(a.project) + mid, OptKey(a.context), OptKey(b.project) + midB, OptKey(b.context));
    CmpKeyAppend(OptKey(a.project), mid, OptKey(b.project), midB);
    OptKeyOrder(a.project, b.project);
    OptKeyOrder(a.context, b.context);
    StrPairOrder(a.section, a.title, b.section, b.title);
  }

  /** `compare_by_context` is the key comparison of `ContextKey`. */
  lemma CompareByContextIsKeyOrder(a: TodoItem, b: TodoItem)
    ensures CompareByContext(a, b) == CmpKey(ContextKey(a), ContextKey(b))
  {
    var mid := [Str(Lower(a.section)), Str(Lower(a.title))];
    var midB := [Str(Lower(b.section)), Str(Lower(b.title))];
    CmpKeyAppend(OptKey(a.context) + mid, OptKey(a.project), OptKey(b.context) + midB, OptKey(b.project));
    CmpKeyAppend(OptKey(a.context), mid, OptKey(b.context), midB);
    OptKeyOrder(a.project, b.project);
    OptKeyOrder(a.context, b.context);
    StrPairOrder(a.section, a.title, b.section, b.title);
  }

  /** `compare_by_due` is the key comparison of `DueKey`. */
  lemma CompareByDueIsKeyOrder(a: TodoItem, b: TodoItem)
    ensures CompareByDue(a, b) == CmpKey(DueKey(a), DueKey(b))
  {
    var da := match a.due case None => [Num(0), Day(Date(1, 1, 1))] case Some(d) => [Num(1), Day(d)];
    var db := match b.due case None => [Num(0), Day(Date(1, 1, 1))] case Some(d) => [Num(1), Day(d)];
    CmpKeyAppend(da, ProjectKey(a), db, ProjectKey(b));
    CompareByProjectIsKeyOrder(a, b);
    CmpKeyPair(da[0], da[1], db[0], db[1]);
    assert da == [da[0], da[1]] && db == [db[0], db[1]];
    if a.due.None? && b.due.None? {
      CmpDateFacts(Date(1, 1, 1), Date(1, 1, 1), Date(1, 1, 1));
    }
  }

  lemma CompareInIsKeyOrder(mode: SortModes.SortMode, a: TodoItem, b: TodoItem)
    ensures CompareIn(mode, a, b) == CmpKey(KeyIn(mode, a), KeyIn(mode, b))
  {
    match mode
    case Topic => CompareByProjectIsKeyOrder(a, b);
    case Location => CompareByContextIsKeyOrder(a, b);
    case Date => CompareByDueIsKeyOrder(a, b);
  }

  /** Each mode's comparator is antisymmetric and transitive at every triple of tasks. */
  lemma CompareInFacts(mode: SortModes.SortMode, a: TodoItem, b: TodoItem, c: TodoItem)
    ensures CompareIn(mode, b, a) == Flip(CompareIn(mode, a, b))
    ensures CompareIn(mode, a, b) != Greater && CompareIn(mode, b, c) != Greater ==> CompareIn(mode, a, c) != Greater
  {
    CompareInIsKeyOrder(mode, a, b);
    CompareInIsKeyOrder(mode, b, a);
    CompareInIsKeyOrder(mode, b, c);
    CompareInIsKeyOrder(mode, a, c);
    CmpKeyFacts(KeyIn(mode, a), KeyIn(mode, b), KeyIn(mode, c));
  }

  lemma CompareByProjectTotalPreorder()
    ensures TotalPreorder(CompareByProject)
  {
    forall a, b ensures CompareByProject(b, a) == Flip(CompareByProject(a, b)) {
      CompareInFacts(SortModes.Topic, a, b, a);
    }
    forall a, b, c | CompareByProject(a, b) != Greater && CompareByProject(b, c) != Greater
      ensures CompareByProject(a, c) != Greater
    {
      CompareInFacts(SortModes.Topic, a, b, c);
    }
  }

  lemma CompareByContextTotalPreorder()
    ensures TotalPreorder(CompareByContext)
  {
    forall a, b ensures CompareByContext(b, a) == Flip(CompareByContext(a, b)) {
      CompareInFacts(SortModes.Location, a, b, a);
    }
    forall a, b, c | CompareByContext(a, b) != Greater && CompareByContext(b, c) != Greater
      ensures CompareByContext(a, c) != Greater
    {
      CompareInFacts(SortModes.Location, a, b, c);
    }
  }

  lemma CompareByDueTotalPreorder()
    ensures TotalPreorder(CompareByDue)
  {
    forall a, b ensures CompareByDue(b, a) == Flip(CompareByDue(a, b)) {
      CompareInFacts(SortModes.Date, a, b, a);
    }
    forall a, b, c | CompareByDue(a, b) != Greater && CompareByDue(b, c) != Greater
      ensures CompareByDue(a, c) != Greater
    {
      CompareInFacts(SortModes.Date, a, b, c);
    }
  }

  /** The comparator `sort_items` hands to `sort_by` for a mode. */
  function ComparatorFor(mode: SortModes.SortMode): (TodoItem, TodoItem) -> Ordering {
    match mode
    case Topic => CompareByProject
    case Location => CompareByContext
    case Date => CompareByDue
  }

  /** Whichever mode is active, `sort_by` is given a total preorder. */
  lemma ComparatorForTotalPreorder(mode: SortModes.SortMode)
    ensures TotalPreorder(ComparatorFor(mode))
    ensures forall a, b :: ComparatorFor(mode)(a, b) == CompareIn(mode, a, b)
  {
    match mode
    case Topic => CompareByProjectTotalPreorder();
    case Location => CompareByContextTotalPreorder();
    case Date => CompareByDueTotalPreorder();
  }
}
