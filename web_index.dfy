/** The index page of the web front end: the saved view settings and their
    overrides, the done and due-only filter, the three search buckets, the
    sort by `sort_key_topic`, `sort_key_location` or `sort_key_date`, and the
    section each listed task is shown under. */
module WebIndex {
  import opened Wrappers
  import opened Text
  import opened Orderings
  import opened Dates
  import opened Tasks
  import opened Compare
  import opened Seqs
  import opened Sorting
  import opened LineFormat
  import SortModes
  import WebLoad

  // ---------------------------------------------------------------------
  // Sort keys

  /** `0 if x else 1, x.lower() if x else ""`: an empty text counts as absent. */
  function PyOptKey(o: Option<string>): seq<KeyPart> {
    match o
    case Some(s) => if s != "" then [Num(0), Str(Lower(s))] else [Num(1), Str("")]
    case None => [Num(1), Str("")]
  }

  /** The section text a loaded task carries. */
  function SectionText(t: WebTodo): string {
    t.section.GetOr("")
  }

  /** `sort_key_topic`: (has project, project, section, title, has context, context). */
  function TopicKey(t: WebTodo): seq<KeyPart> {
    PyOptKey(t.project) + [Str(Lower(SectionText(t))), Str(Lower(t.title))] + PyOptKey(t.context)
  }

  /** `sort_key_location`: (has context, context, section, title, has project, project). */
  function LocationKey(t: WebTodo): seq<KeyPart> {
    PyOptKey(t.context) + [Str(Lower(SectionText(t))), Str(Lower(t.title))] + PyOptKey(t.project)
  }

  /** `sort_key_date`: undated tasks first, under `datetime.min`, then by date,
      then by the topic key (the nested tuple compares like its flattening). */
  function DateKey(t: WebTodo): seq<KeyPart> {
    (match t.due
     case None => [Num(0), Day(Date(1, 1, 1))]
     case Some(d) => [Num(1), Day(d)]) + TopicKey(t)
  }

  /** The key of the sort mode: "location", "date", and anything else sorts by topic. */
  function KeyFor(mode: string, t: WebTodo): seq<KeyPart> {
    match SortModes.FromKey(mode)
    case Location => LocationKey(t)
    case Date => DateKey(t)
    case Topic => TopicKey(t)
  }

  /** `list.sort(key=...)` compares keys. */
  function WebCmp(mode: string): (cmp: (WebTodo, WebTodo) -> Ordering)
    ensures forall a, b :: cmp(a, b) == CmpKey(KeyFor(mode, a), KeyFor(mode, b))
  {
    (a: WebTodo, b: WebTodo) => CmpKey(KeyFor(mode, a), KeyFor(mode, b))
  }

  /** Every mode's key order is a total preorder, so the sort is well defined. */
  lemma WebCmpTotalPreorder(mode: string)
    ensures TotalPreorder(WebCmp(mode))
  {
    var cmp := WebCmp(mode);
    forall a, b ensures cmp(b, a) == Flip(cmp(a, b)) {
      CmpKeyFacts(KeyFor(mode, a), KeyFor(mode, b), KeyFor(mode, a));
    }
    forall a, b, c | cmp(a, b) != Greater && cmp(b, c) != Greater
      ensures cmp(a, c) != Greater
    {
      CmpKeyFacts(KeyFor(mode, a), KeyFor(mode, b), KeyFor(mode, c));
    }
  }

  /** The desktop record of the same task line. */
  function AsItem(t: WebTodo): TodoItem {
    TodoItem(TodoKey(t.lineIndex, t.marker), t.title, SectionText(t), t.project, t.context, t.due, None, t.reference, t.done)
  }

  /** The web keys are the desktop keys: when no project or context is the
      empty text, the web page orders tasks exactly as the desktop comparator
      of the same mode does. */
  lemma WebKeysMatchDesktop(mode: string, a: WebTodo, b: WebTodo)
    requires a.project != Some("") && a.context != Some("")
    requires b.project != Some("") && b.context != Some("")
    ensures WebCmp(mode)(a, b) == CompareIn(SortModes.FromKey(mode), AsItem(a), AsItem(b))
  {
    KeyMatchesDesktop(mode, a);
    KeyMatchesDesktop(mode, b);
    CompareInIsKeyOrder(SortModes.FromKey(mode), AsItem(a), AsItem(b));
  }

  /** One task's web sort key is its desktop sort key. */
  lemma KeyMatchesDesktop(mode: string, t: WebTodo)
    requires t.project != Some("") && t.context != Some("")
    ensures KeyFor(mode, t) == KeyIn(SortModes.FromKey(mode), AsItem(t))
  {
    assert PyOptKey(t.project) == OptKey(t.project) && PyOptKey(t.context) == OptKey(t.context);
  }

  /** Tasks without a date come before dated ones in date mode. */
  lemma UndatedFirst(a: WebTodo, b: WebTodo)
    requires a.due.None? && b.due.Some?
    ensures WebCmp("date")(a, b) == Less
  {
    var da: seq<KeyPart> := [Num(0), Day(Date(1, 1, 1))];
    var db: seq<KeyPart> := [Num(1), Day(b.due.value)];
    assert DateKey(a) == da + TopicKey(a) && DateKey(b) == db + TopicKey(b);
    CmpKeyAppend(da, TopicKey(a), db, TopicKey(b));
    assert CmpKey(da, db) == Less;
  }

  // ---------------------------------------------------------------------
  // Filter

  /** The task passes the done switch and, with due-only set, is not due after today. */
  predicate Shown(t: WebTodo, showDone: bool, dueOnly: bool, today: Date) {
    (showDone || !t.done) && !(dueOnly && t.due.Some? && Before(today, t.due.value))
  }

  /** The filter of the list view as a condition on tasks. */
  function ShownBy(showDone: bool, dueOnly: bool, today: Date): WebTodo -> bool {
    t => Shown(t, showDone, dueOnly, today)
  }

  /** The filter loop of `index`. */
  method FilterTodos(todos: seq<WebTodo>, showDone: bool, dueOnly: bool, today: Date) returns (filtered: seq<WebTodo>)
    ensures filtered == Filter(todos, ShownBy(showDone, dueOnly, today))
  {
    ghost var shown := ShownBy(showDone, dueOnly, today);
    filtered := [];
    var i := 0;
    while i < |todos|
      invariant 0 <= i <= |todos|
      invariant filtered == Filter(todos[..i], shown)
    {
      var todo := todos[i];
      ghost var keep := Shown(todo, showDone, dueOnly, today);
      FilterPrefixStep(todos, i, shown, keep);
      i := i + 1;
      if !showDone && todo.done {
        continue;
      }
      if dueOnly {
        if todo.due.Some? && Before(today, todo.due.value) {
          continue;
        }
      }
      filtered := filtered + [todo];
    }
    assert todos[..|todos|] == todos;
    assert filtered == Filter(todos, shown);
  }

  lemma FilterPrefixStep<T>(s: seq<T>, i: nat, p: T -> bool, keep: bool)
    requires i < |s| && p(s[i]) == keep
    ensures keep ==> Filter(s[..i + 1], p) == Filter(s[..i], p) + [s[i]]
    ensures !keep ==> Filter(s[..i + 1], p) == Filter(s[..i], p)
  {
    assert s[..i + 1] == s[..i] + [s[i]];
    FilterSnoc(s[..i], s[i], p);
  }

  /** The listed tasks are exactly the tasks that pass both switches, in file order. */
  lemma FilterFacts(todos: seq<WebTodo>, showDone: bool, dueOnly: bool, today: Date)
    ensures var f := Filter(todos, ShownBy(showDone, dueOnly, today));
      (forall t :: t in f <==> t in todos && Shown(t, showDone, dueOnly, today)) &&
      (forall t :: t in f ==> (showDone || !t.done) && (dueOnly && t.due.Some? ==> !Before(today, t.due.value)))
  {
  }

  // ---------------------------------------------------------------------
  // Search

  /** `q in t['title'].lower()`. */
  predicate Matches(t: WebTodo, q: string) {
    Contains(Lower(t.title), q)
  }

  /** Some task of `current` has `t`'s line index and marker. */
  predicate KeyTaken(current: seq<WebTodo>, t: WebTodo) {
    exists c :: c in current && c.lineIndex == t.lineIndex && c.marker == t.marker
  }

  /** The copies with `section` set to `None`. */
  function HideSections(s: seq<WebTodo>): (r: seq<WebTodo>)
    ensures |r| == |s| && forall i :: 0 <= i < |s| ==> r[i] == s[i].(section := None)
  {
    seq(|s|, i requires 0 <= i < |s| => s[i].(section := None))
  }

  /** A task is in the hidden copy exactly when it is the copy of a task of `s`. */
  lemma HiddenMember(s: seq<WebTodo>, c: WebTodo)
    ensures c in HideSections(s) <==> exists u :: u in s && c == u.(section := None)
  {
    var r := HideSections(s);
    if c in r {
      var i :| 0 <= i < |r| && r[i] == c;
      assert s[i] in s;
    }
    if exists u :: u in s && c == u.(section := None) {
      var u :| u in s && c == u.(section := None);
      var i :| 0 <= i < |s| && s[i] == u;
      assert r[i] == c;
    }
  }

  /** Bucket 1 (`current_results`): the listed tasks whose title matches, in file order. */
  function CurrentResults(filtered: seq<WebTodo>, q: string): seq<WebTodo> {
    HideSections(Filter(filtered, (t: WebTodo) => Matches(t, q)))
  }

  /** Buckets 2 and 3 (`open_results`, `done_results`): all matching tasks of
      the file with the given done flag, less those whose key bucket 1 holds. */
  function OtherResults(todos: seq<WebTodo>, q: string, done: bool, current: seq<WebTodo>): seq<WebTodo> {
    HideSections(Filter(Filter(todos, (t: WebTodo) => t.done == done && Matches(t, q)), (t: WebTodo) => !KeyTaken(current, t)))
  }

  /** Bucket 1 holds only listed tasks that match, with their sections hidden. */
  lemma CurrentContents(filtered: seq<WebTodo>, q: string, c: WebTodo)
    requires c in CurrentResults(filtered, q)
    ensures Matches(c, q) && c.section.None?
    ensures exists u :: u in filtered && c == u.(section := None)
  {
    var m := Filter(filtered, (t: WebTodo) => Matches(t, q));
    HiddenMember(m, c);
    var u :| u in m && c == u.(section := None);
    var i :| 0 <= i < |m| && m[i] == u;
  }

  /** Buckets 2 and 3 hold only matching tasks of the file with the bucket's
      done flag, with their sections hidden, and none whose key bucket 1 holds. */
  lemma OtherContents(todos: seq<WebTodo>, q: string, done: bool, current: seq<WebTodo>, c: WebTodo)
    requires c in OtherResults(todos, q, done, current)
    ensures Matches(c, q) && c.section.None? && c.done == done && !KeyTaken(current, c)
    ensures exists u :: u in todos && c == u.(section := None)
  {
    var m1 := Filter(todos, (t: WebTodo) => t.done == done && Matches(t, q));
    var m2 := Filter(m1, (t: WebTodo) => !KeyTaken(current, t));
    HiddenMember(m2, c);
    var u :| u in m2 && c == u.(section := None);
    var i :| 0 <= i < |m2| && m2[i] == u;
    var j :| 0 <= j < |m1| && m1[j] == u;
    assert !KeyTaken(current, u);
  }

  /** No task is shown twice: bucket 1 and the others share no key, and the
      open and the done bucket share no task. */
  lemma BucketsDisjoint(todos: seq<WebTodo>, filtered: seq<WebTodo>, q: string, c: WebTodo)
    ensures var cur := CurrentResults(filtered, q);
      c in cur ==> c !in OtherResults(todos, q, false, cur) && c !in OtherResults(todos, q, true, cur)
    ensures var cur := CurrentResults(filtered, q);
      !(c in OtherResults(todos, q, false, cur) && c in OtherResults(todos, q, true, cur))
  {
    var cur := CurrentResults(filtered, q);
    if c in OtherResults(todos, q, false, cur) {
      OtherContents(todos, q, false, cur, c);
    }
    if c in OtherResults(todos, q, true, cur) {
      OtherContents(todos, q, true, cur, c);
    }
  }

  /** No two tasks of the file come from the same line. */
  predicate LinesDistinct(todos: seq<WebTodo>) {
    forall i, j :: 0 <= i < j < |todos| ==> todos[i].lineIndex != todos[j].lineIndex
  }

  /** Every matching task of the file is found: a listed one in bucket 1,
      any other one in the bucket of its done flag. */
  lemma SearchComplete(todos: seq<WebTodo>, filtered: seq<WebTodo>, q: string, t: WebTodo)
    requires LinesDistinct(todos)
    requires forall u :: u in filtered ==> u in todos
    requires t in todos && Matches(t, q)
    ensures var cur := CurrentResults(filtered, q);
      if t in filtered then t.(section := None) in cur
      else t.(section := None) in OtherResults(todos, q, t.done, cur)
  {
    var cur := CurrentResults(filtered, q);
    if t in filtered {
      var m := Filter(filtered, (u: WebTodo) => Matches(u, q));
      assert t in m;
      HiddenMember(m, t.(section := None));
    } else {
      if KeyTaken(cur, t) {
        var c :| c in cur && c.lineIndex == t.lineIndex && c.marker == t.marker;
        CurrentContents(filtered, q, c);
        var u :| u in filtered && c == u.(section := None);
        var i :| 0 <= i < |todos| && todos[i] == u;
        assert false;
      }
      var m1 := Filter(todos, (u: WebTodo) => u.done == t.done && Matches(u, q));
      assert t in m1;
      var m2 := Filter(m1, (u: WebTodo) => !KeyTaken(cur, u));
      assert t in m2;
      HiddenMember(m2, t.(section := None));
    }
  }

  /** `load_todos` reads at most one task from a line. */
  lemma LoadedLinesDistinct(lines: seq<string>, noSection: string)
    ensures LinesDistinct(WebLoad.Loaded(lines, noSection))
  {
    WebLoad.LoadedTasks(lines, noSection);
  }

  // ---------------------------------------------------------------------
  // Sorted list and its groups

  /** The first component pair of the mode's key: the group a task falls in. */
  function GroupKey(mode: string, t: WebTodo): seq<KeyPart> {
    match SortModes.FromKey(mode)
    case Location => PyOptKey(t.context)
    case Date => (match t.due
                  case None => [Num(0), Day(Date(1, 1, 1))]
                  case Some(d) => [Num(1), Day(d)])
    case Topic => PyOptKey(t.project)
  }

  /** The rest of the mode's key. */
  function RestKey(mode: string, t: WebTodo): seq<KeyPart> {
    match SortModes.FromKey(mode)
    case Location => [Str(Lower(SectionText(t))), Str(Lower(t.title))] + PyOptKey(t.project)
    case Date => TopicKey(t)
    case Topic => [Str(Lower(SectionText(t))), Str(Lower(t.title))] + PyOptKey(t.context)
  }

  lemma KeySplit(mode: string, t: WebTodo)
    ensures |GroupKey(mode, t)| == 2 && KeyFor(mode, t) == GroupKey(mode, t) + RestKey(mode, t)
  {
  }

  /** In a list sorted by the mode's key, the tasks of one group (one project
      in topic mode, one context in location mode, one date in date mode,
      compared without case) are contiguous, so each group heading is shown once. */
  lemma GroupsContiguous(mode: string, s: seq<WebTodo>, i: nat, j: nat, k: nat)
    requires Sorted(WebCmp(mode), s) && i < j < k < |s|
    requires GroupKey(mode, s[i]) == GroupKey(mode, s[k])
    ensures GroupKey(mode, s[j]) == GroupKey(mode, s[i])
  {
    var gi, gj, gk := GroupKey(mode, s[i]), GroupKey(mode, s[j]), GroupKey(mode, s[k]);
    KeySplit(mode, s[i]);
    KeySplit(mode, s[j]);
    KeySplit(mode, s[k]);
    assert WebCmp(mode)(s[i], s[j]) != Greater && WebCmp(mode)(s[j], s[k]) != Greater;
    CmpKeyAppend(gi, RestKey(mode, s[i]), gj, RestKey(mode, s[j]));
    CmpKeyAppend(gj, RestKey(mode, s[j]), gk, RestKey(mode, s[k]));
    CmpKeyFacts(gi, gj, gk);
  }

  /** `sort_mode` picks the key; Python's `list.sort` is the stable sort `SortBy`:
      tasks with equal keys keep their order in the file. */
  function SortedTodos(mode: string, filtered: seq<WebTodo>): (r: seq<WebTodo>)
    ensures Sorted(WebCmp(mode), r) && multiset(r) == multiset(filtered)
    ensures forall x :: Filter(r, EquivTo(WebCmp(mode), x)) == Filter(filtered, EquivTo(WebCmp(mode), x))
  {
    WebCmpTotalPreorder(mode);
    SortBySorted(WebCmp(mode), filtered);
    assert forall x :: Filter(SortBy(WebCmp(mode), filtered), EquivTo(WebCmp(mode), x)) ==
                       Filter(filtered, EquivTo(WebCmp(mode), x)) by {
      forall x ensures Filter(SortBy(WebCmp(mode), filtered), EquivTo(WebCmp(mode), x)) ==
                       Filter(filtered, EquivTo(WebCmp(mode), x)) {
        SortByStable(WebCmp(mode), filtered, x);
      }
    }
    SortBy(WebCmp(mode), filtered)
  }

  /** `todo['project'] if todo['project'] else dflt`. */
  function TextOr(o: Option<string>, dflt: string): (r: string)
    ensures o.Some? && o.value != "" ==> r == o.value
    ensures o.None? || o.value == "" ==> r == dflt
  {
    match o
    case Some(v) => if v != "" then v else dflt
    case None => dflt
  }

  /** The section a listed task is shown under: its project in topic mode,
      its context in location mode, one empty section in date mode; any other
      mode (which sorts by topic) keeps the file's section. */
  function DisplaySection(mode: string, t: WebTodo): Option<string> {
    if mode == "topic" then Some("Thema: " + TextOr(t.project, "Ohne Projekt"))
    else if mode == "location" then Some("Ort: " + TextOr(t.context, "Ohne Ort"))
    else if mode == "date" then Some("")
    else t.section
  }

  /** The display copies of a sorted list. */
  function Displayed(mode: string, s: seq<WebTodo>): seq<WebTodo> {
    seq(|s|, i requires 0 <= i < |s| => s[i].(section := DisplaySection(mode, s[i])))
  }

  /** The display loop of `index`. */
  method DisplayTodos(mode: string, sorted: seq<WebTodo>) returns (display: seq<WebTodo>)
    ensures display == Displayed(mode, sorted)
  {
    display := [];
    for i := 0 to |sorted|
      invariant display == Displayed(mode, sorted[..i])
    {
      var item := sorted[i];
      if mode == "topic" {
        item := item.(section := Some("Thema: " + TextOr(sorted[i].project, "Ohne Projekt")));
      } else if mode == "location" {
        item := item.(section := Some("Ort: " + TextOr(sorted[i].context, "Ohne Ort")));
      } else if mode == "date" {
        item := item.(section := Some(""));
      }
      display := display + [item];
    }
    assert sorted[..|sorted|] == sorted;
  }

  /** In topic and location mode, tasks of one group get one heading. */
  lemma SameGroupSameHeading(mode: string, a: WebTodo, b: WebTodo)
    requires mode == "topic" || mode == "location"
    requires GroupKey(mode, a) == GroupKey(mode, b)
    requires mode == "topic" ==> TextOr(a.project, "") == TextOr(b.project, "")
    requires mode == "location" ==> TextOr(a.context, "") == TextOr(b.context, "")
    ensures DisplaySection(mode, a) == DisplaySection(mode, b)
  {
  }

  // ---------------------------------------------------------------------
  // Settings

  /** The three settings a query parameter overrides and the next visit remembers. */
  const SettingNames: set<string> := {"show_done", "show_due_only", "sort_mode"}

  /** A query parameter if given, else the saved value, else the default. */
  function Effective(args: map<string, string>, saved: map<string, string>, name: string, dflt: string): (r: string)
    ensures name in args ==> r == args[name]
    ensures name !in args && name in saved ==> r == saved[name]
    ensures name !in args && name !in saved ==> r == dflt
  {
    if name in args then args[name]
    else if name in saved then saved[name]
    else dflt
  }

  /** Some setting was given as a query parameter, so the settings are saved. */
  predicate Changed(args: map<string, string>) {
    "show_done" in args || "show_due_only" in args || "sort_mode" in args
  }

  /** `new_settings[name] = value` when the parameter `name` was given. */
  function Override(settings: map<string, string>, args: map<string, string>, name: string): map<string, string> {
    if name in args then settings[name := args[name]] else settings
  }

  /** `new_settings`: the saved settings with the given parameters written over them. */
  function NewSettings(args: map<string, string>, saved: map<string, string>): map<string, string> {
    Override(Override(Override(saved, args, "show_done"), args, "show_due_only"), args, "sort_mode")
  }

  /** What a visit sets is what the next visit without parameters reads back,
      other saved entries are kept, and a visit without parameters saves nothing new. */
  lemma SettingsPersist(args: map<string, string>, saved: map<string, string>, name: string, dflt: string)
    requires name in SettingNames
    ensures Effective(map[], NewSettings(args, saved), name, dflt) == Effective(args, saved, name, dflt)
    ensures forall k :: k !in SettingNames ==> (k in NewSettings(args, saved) <==> k in saved)
    ensures forall k :: k !in SettingNames && k in saved ==> NewSettings(args, saved)[k] == saved[k]
    ensures !Changed(args) ==> NewSettings(args, saved) == saved
  {
  }

  /** The view a request asks for. */
  datatype View = View(showDone: bool, dueOnly: bool, sortMode: string, query: string)

  /** `== '1'` on the effective switches; `q` is lower-cased. */
  function ViewOf(args: map<string, string>, saved: map<string, string>): View {
    View(Effective(args, saved, "show_done", "0") == "1",
         Effective(args, saved, "show_due_only", "0") == "1",
         Effective(args, saved, "sort_mode", "topic"),
         Lower(if "q" in args then args["q"] else ""))
  }

  // ---------------------------------------------------------------------
  // The page

  /** The search page with its three buckets, or the sorted and grouped list. */
  datatype Page = SearchPage(current: seq<WebTodo>, open: seq<WebTodo>, done: seq<WebTodo>) | ListPage(todos: seq<WebTodo>)

  function IndexPage(todos: seq<WebTodo>, view: View, today: Date): Page {
    var filtered := Filter(todos, ShownBy(view.showDone, view.dueOnly, today));
    if view.query != "" then
      var cur := CurrentResults(filtered, view.query);
      SearchPage(cur, OtherResults(todos, view.query, false, cur), OtherResults(todos, view.query, true, cur))
    else
      ListPage(Displayed(view.sortMode, SortedTodos(view.sortMode, filtered)))
  }

  /** `index` once the tasks are loaded: the view, the page, and the settings
      to save (`None` when no setting was given). */
  method Index(todos: seq<WebTodo>, saved: map<string, string>, args: map<string, string>, today: Date)
    returns (view: View, page: Page, save: Option<map<string, string>>)
    ensures view == ViewOf(args, saved)
    ensures save.Some? <==> Changed(args)
    ensures save.Some? ==> save.value == NewSettings(args, saved)
    ensures page == IndexPage(todos, view, today)
  {
    var showDoneVal, settings1, given1 := Setting(args, saved, saved, "show_done", "0");
    var dueOnlyVal, settings2, given2 := Setting(args, saved, settings1, "show_due_only", "0");
    var sortMode, settings3, given3 := Setting(args, saved, settings2, "sort_mode", "topic");
    save := if given1 || given2 || given3 then Some(settings3) else None;
    var q := Lower(if "q" in args then args["q"] else "");
    view := View(showDoneVal == "1", dueOnlyVal == "1", sortMode, q);
    page := RenderPage(todos, view, today);
  }

  /** One setting of `index`: the query parameter, written into the settings
      to save, or else the saved value or the default. */
  method Setting(args: map<string, string>, saved: map<string, string>, settings: map<string, string>, name: string, dflt: string)
    returns (value: string, updated: map<string, string>, given: bool)
    ensures value == Effective(args, saved, name, dflt)
    ensures updated == Override(settings, args, name)
    ensures given <==> name in args
  {
    if name in args {
      value := args[name];
      updated := settings[name := value];
      given := true;
    } else {
      value := if name in saved then saved[name] else dflt;
      updated := settings;
      given := false;
    }
  }

  /** The filtered tasks as search buckets when there is a query, else sorted and grouped. */
  method RenderPage(todos: seq<WebTodo>, view: View, today: Date) returns (page: Page)
    ensures page == IndexPage(todos, view, today)
  {
    var filtered := FilterTodos(todos, view.showDone, view.dueOnly, today);
    if view.query != "" {
      var cur := CurrentResults(filtered, view.query);
      page := SearchPage(cur, OtherResults(todos, view.query, false, cur), OtherResults(todos, view.query, true, cur));
    } else {
      var display := DisplayTodos(view.sortMode, SortedTodos(view.sortMode, filtered));
      page := ListPage(display);
    }
  }

  /** The list page shows the listed tasks, sorted by the mode's key, each
      under its display section and otherwise unchanged. */
  lemma ListPageFacts(todos: seq<WebTodo>, view: View, today: Date)
    requires view.query == ""
    ensures var filtered := Filter(todos, ShownBy(view.showDone, view.dueOnly, today));
      exists s: seq<WebTodo> ::
        Sorted(WebCmp(view.sortMode), s) && multiset(s) == multiset(filtered) &&
        IndexPage(todos, view, today) == ListPage(Displayed(view.sortMode, s))
  {
    var filtered := Filter(todos, ShownBy(view.showDone, view.dueOnly, today));
    var s := SortedTodos(view.sortMode, filtered);
    assert IndexPage(todos, view, today) == ListPage(Displayed(view.sortMode, s));
  }
}
