/** The list the desktop window shows, as `repopulate_store` builds it: the
    cached tasks are sorted by the active mode, then either filtered by the
    done and due-only switches and grouped under headers (no search term), or
    split into three search buckets; finally the previously selected task is
    found again by its key. Here it is one function of its inputs; the
    `AppState` method that fills the store is proved to produce it. */
module View {
  import opened Wrappers
  import opened Text
  import opened Orderings
  import opened Dates
  import opened Tasks
  import opened Compare
  import opened Seqs
  import opened Sorting
  import SortModes

  /** One row of the list store (`ListEntry`). */
  datatype ListEntry = Header(text: string) | Item(todo: TodoItem)

  /** The whole view: the rows and the row to select, if any. */
  datatype ViewResult = ViewResult(entries: seq<ListEntry>, selected: Option<nat>)

  // ---------------------------------------------------------------------
  // Group headers

  /** The project or context shown in a header; the placeholder when it is absent or empty. */
  function NameOr(o: Option<string>, placeholder: string): (r: string)
    ensures o.Some? && o.value != "" ==> r == o.value
    ensures o.None? || o.value == "" ==> r == placeholder
  {
    if o.Some? && o.value != "" then o.value else placeholder
  }

  /** The translated header template of a grouping mode. */
  function GroupTemplate(mode: SortModes.SortMode, tr: string -> string): string {
    if mode == SortModes.Location then tr("location_group") else tr("topic_group")
  }

  /** The name a grouping mode puts in its template. */
  function GroupName(mode: SortModes.SortMode, item: TodoItem, tr: string -> string): string {
    if mode == SortModes.Location then NameOr(item.context, tr("no_location")) else NameOr(item.project, tr("no_project"))
  }

  /** `t` has exactly one `{}`. */
  predicate OnePlaceholder(t: string) {
    Find(t, "{}").Some? && !Contains(t[Find(t, "{}").value + 2..], "{}")
  }

  /** `group_label`: the header text for a task, `None` in date mode; otherwise the
      mode's template, with the group's name in place of its `{}` (`GroupLabelText`). */
  function GroupLabel(mode: SortModes.SortMode, item: TodoItem, tr: string -> string): (r: Option<string>)
    ensures r.None? <==> mode == SortModes.Date
  {
    match mode
    case Topic => Some(ReplaceAll(tr("topic_group"), "{}", NameOr(item.project, tr("no_project"))))
    case Location => Some(ReplaceAll(tr("location_group"), "{}", NameOr(item.context, tr("no_location"))))
    case Date => None
  }

  /** Outside date mode the label is the mode's template with the group's name
      at the template's first `{}`; with a single `{}` the rest of the template
      is kept around the name, and without one the template is the label. */
  lemma GroupLabelText(mode: SortModes.SortMode, item: TodoItem, tr: string -> string)
    requires mode != SortModes.Date
    ensures var t, name, r := GroupTemplate(mode, tr), GroupName(mode, item, tr), GroupLabel(mode, item, tr).value;
      (Find(t, "{}").Some? ==>
        var k := Find(t, "{}").value;
        |r| >= k + |name| && r[..k] == t[..k] && r[k..k + |name|] == name) &&
      (OnePlaceholder(t) ==>
        var k := Find(t, "{}").value;
        r == t[..k] + name + t[k + 2..]) &&
      (!Contains(t, "{}") ==> r == t)
  {
    if Find(GroupTemplate(mode, tr), "{}").Some? {
      ReplaceAllFirst(GroupTemplate(mode, tr), "{}", GroupName(mode, item, tr));
    }
  }

  /** The header of a task depends on nothing but the name its mode groups by. */
  lemma GroupLabelByName(mode: SortModes.SortMode, a: TodoItem, b: TodoItem, tr: string -> string)
    requires mode == SortModes.Topic ==> NameOr(a.project, tr("no_project")) == NameOr(b.project, tr("no_project"))
    requires mode == SortModes.Location ==> NameOr(a.context, tr("no_location")) == NameOr(b.context, tr("no_location"))
    ensures GroupLabel(mode, a, tr) == GroupLabel(mode, b, tr)
  {
  }

  /** A template without a `{}` placeholder is shown as it is. */
  lemma GroupLabelWithoutPlaceholder(mode: SortModes.SortMode, item: TodoItem, tr: string -> string)
    requires mode == SortModes.Topic ==> !Contains(tr("topic_group"), "{}")
    requires mode == SortModes.Location ==> !Contains(tr("location_group"), "{}")
    ensures mode == SortModes.Topic ==> GroupLabel(mode, item, tr) == Some(tr("topic_group"))
    ensures mode == SortModes.Location ==> GroupLabel(mode, item, tr) == Some(tr("location_group"))
  {
  }

  // ---------------------------------------------------------------------
  // Detail line

  /** The due date as shown: the "sometimes" text for any date in year 9999,
      else the `due_label` template with the date in place of `{}`. */
  function DueText(d: Date, tr: string -> string): string
    requires Valid(d)
  {
    if d.year == 9999 then tr("sometimes") else ReplaceAll(tr("due_label"), "{}", Format(d))
  }

  /** The recurrence as shown: the three named rules translated, any other rule as written. */
  function RuleText(rule: string, tr: string -> string): string {
    if rule == "daily" then tr("recurrence_daily")
    else if rule == "weekly" then tr("recurrence_weekly")
    else if rule == "monthly" then tr("recurrence_monthly")
    else rule
  }

  /** The parts of `format_metadata`, in their order: section, project,
      context, due date, recurrence, reference; absent ones are skipped. */
  function MetadataParts(item: TodoItem, tr: string -> string): seq<string>
    requires item.due.Some? ==> Valid(item.due.value)
  {
    (if item.section != "" then [item.section] else [])
    + (match item.project case Some(p) => ["+" + p] case None => [])
    + (match item.context case Some(c) => ["@" + c] case None => [])
    + (match item.due case Some(d) => [DueText(d, tr)] case None => [])
    + (match item.recurrence case Some(r) => ["↻ " + RuleText(r, tr)] case None => [])
    + (match item.reference case Some(r) => ["↗ " + r] case None => [])
  }

  /** `format_metadata`: the detail line under a task's title. */
  function FormatMetadata(item: TodoItem, tr: string -> string): string
    requires item.due.Some? ==> Valid(item.due.value)
  {
    Join(MetadataParts(item, tr), " • ")
  }

  /** Each part of a join occurs in the joined text. */
  lemma {:induction false} JoinOccurs(parts: seq<string>, sep: string, i: nat) returns (k: nat)
    requires i < |parts|
    ensures OccursAt(Join(parts, sep), parts[i], k)
  {
    if |parts| == 1 {
      k := 0;
      assert Join(parts, sep)[0..|parts[0]|] == parts[0];
    } else if i == 0 {
      k := 0;
      var j := Join(parts, sep);
      assert j == parts[0] + (sep + Join(parts[1..], sep));
      assert j[0..|parts[0]|] == parts[0];
    } else {
      var k0 := JoinOccurs(parts[1..], sep, i - 1);
      var head := parts[0] + sep;
      var rest := Join(parts[1..], sep);
      assert Join(parts, sep) == head + rest;
      k := |head| + k0;
      assert (head + rest)[k..k + |parts[i]|] == rest[k0..k0 + |parts[i]|];
    }
  }

  lemma JoinContains(parts: seq<string>, sep: string, x: string)
    requires x in parts
    ensures Contains(Join(parts, sep), x)
  {
    var i :| 0 <= i < |parts| && parts[i] == x;
    var k := JoinOccurs(parts, sep, i);
    ContainsIff(Join(parts, sep), x);
  }

  /** The detail line shows every field the task has: its section, `+project`,
      `@context`, its date (the "sometimes" text in year 9999), its rule after
      `↻ ` and its reference after `↗ `; a task with none of them shows nothing. */
  lemma MetadataShowsFields(item: TodoItem, tr: string -> string)
    requires item.due.Some? ==> Valid(item.due.value)
    ensures item.section != "" ==> Contains(FormatMetadata(item, tr), item.section)
    ensures item.project.Some? ==> Contains(FormatMetadata(item, tr), "+" + item.project.value)
    ensures item.context.Some? ==> Contains(FormatMetadata(item, tr), "@" + item.context.value)
    ensures item.due.Some? && item.due.value.year == 9999 ==> Contains(FormatMetadata(item, tr), tr("sometimes"))
    ensures item.recurrence.Some? ==> Contains(FormatMetadata(item, tr), "↻ " + RuleText(item.recurrence.value, tr))
    ensures item.reference.Some? ==> Contains(FormatMetadata(item, tr), "↗ " + item.reference.value)
    ensures (item.section == "" && item.project.None? && item.context.None? && item.due.None? &&
             item.recurrence.None? && item.reference.None?) ==> FormatMetadata(item, tr) == ""
  {
    var parts := MetadataParts(item, tr);
    if item.section != "" {
      JoinContains(parts, " • ", item.section);
    }
    if item.project.Some? {
      JoinContains(parts, " • ", "+" + item.project.value);
    }
    if item.context.Some? {
      JoinContains(parts, " • ", "@" + item.context.value);
    }
    if item.due.Some? {
      JoinContains(parts, " • ", DueText(item.due.value, tr));
    }
    if item.recurrence.Some? {
      JoinContains(parts, " • ", "↻ " + RuleText(item.recurrence.value, tr));
    }
    if item.reference.Some? {
      JoinContains(parts, " • ", "↗ " + item.reference.value);
    }
  }

  /** The done and due-only switches: a task is listed when it is open or done
      tasks are shown, and, with due-only set, when it has no date or is due
      today or earlier. */
  predicate Visible(t: TodoItem, includeDone: bool, dueOnly: bool, today: Date) {
    (includeDone || !t.done) && (!dueOnly || t.due.None? || CmpDate(t.due.value, today) != Greater)
  }

  /** The rows one task adds: a header when its label differs from the last
      header emitted (`last`), then the task. */
  function RowsFor(mode: SortModes.SortMode, x: TodoItem, tr: string -> string, last: Option<string>): seq<ListEntry> {
    var lbl := GroupLabel(mode, x, tr);
    if lbl.Some? && last != lbl then [Header(lbl.value), Item(x)] else [Item(x)]
  }

  /** The last header emitted once the task's rows are added (`last_group`). */
  function LabelAfter(mode: SortModes.SortMode, x: TodoItem, tr: string -> string, last: Option<string>): Option<string> {
    var lbl := GroupLabel(mode, x, tr);
    if lbl.Some? && last != lbl then lbl else last
  }

  /** The `for` loop of the non-search branch, task by task. */
  function Grouped(mode: SortModes.SortMode, items: seq<TodoItem>, tr: string -> string, last: Option<string>): seq<ListEntry>
  {
    if |items| == 0 then []
    else RowsFor(mode, items[0], tr, last) + Grouped(mode, items[1..], tr, LabelAfter(mode, items[0], tr, last))
  }

  /** The tasks of a list, in order, without its headers. */
  function ItemsOf(e: seq<ListEntry>): seq<TodoItem> {
    if |e| == 0 then []
    else (if e[0].Item? then [e[0].todo] else []) + ItemsOf(e[1..])
  }

  /** The label of the last header in `e`, or `last` when `e` has none. */
  function LastHeader(e: seq<ListEntry>, last: Option<string>): Option<string> {
    if |e| == 0 then last
    else LastHeader(e[1..], if e[0].Header? then Some(e[0].text) else last)
  }

  function HeaderCount(e: seq<ListEntry>): nat {
    if |e| == 0 then 0 else (if e[0].Header? then 1 else 0) + HeaderCount(e[1..])
  }

  /** Every header is followed by a task carrying that label, and the label
      differs from the header before it. */
  ghost predicate HeadersMarkChanges(mode: SortModes.SortMode, tr: string -> string, e: seq<ListEntry>, last: Option<string>) {
    forall k :: 0 <= k < |e| && e[k].Header? ==>
      k + 1 < |e| && e[k + 1].Item? && GroupLabel(mode, e[k + 1].todo, tr) == Some(e[k].text) &&
      LastHeader(e[..k], last) != Some(e[k].text)
  }

  /** A task without a header in front of it has no label or the label of the last header. */
  ghost predicate NoHeaderNoChange(mode: SortModes.SortMode, tr: string -> string, e: seq<ListEntry>, last: Option<string>) {
    forall k :: 0 <= k < |e| && e[k].Item? && (k == 0 || !e[k - 1].Header?) ==>
      GroupLabel(mode, e[k].todo, tr).None? || GroupLabel(mode, e[k].todo, tr) == LastHeader(e[..k], last)
  }

  /** A header stands exactly where a task's label differs from the last header emitted. */
  ghost predicate HeadersAtLabelChanges(mode: SortModes.SortMode, tr: string -> string, e: seq<ListEntry>, last: Option<string>) {
    HeadersMarkChanges(mode, tr, e, last) && NoHeaderNoChange(mode, tr, e, last)
  }

  lemma {:induction false} ItemsOfAppend(a: seq<ListEntry>, b: seq<ListEntry>)
    ensures ItemsOf(a + b) == ItemsOf(a) + ItemsOf(b)
  {
    if |a| == 0 {
      assert a + b == b;
    } else {
      var c := a + b;
      var head := if a[0].Item? then [a[0].todo] else [];
      assert c[0] == a[0] && c[1..] == a[1..] + b;
      ItemsOfAppend(a[1..], b);
      assert ItemsOf(c) == head + (ItemsOf(a[1..]) + ItemsOf(b));
      assert ItemsOf(a) == head + ItemsOf(a[1..]);
    }
  }

  lemma {:induction false} HeaderCountAppend(a: seq<ListEntry>, b: seq<ListEntry>)
    ensures HeaderCount(a + b) == HeaderCount(a) + HeaderCount(b)
  {
    if |a| == 0 {
      assert a + b == b;
    } else {
      HeaderCountAppend(a[1..], b);
      assert (a + b)[0] == a[0];
      assert (a + b)[1..] == a[1..] + b;
    }
  }

  lemma {:induction false} LastHeaderAppend(a: seq<ListEntry>, b: seq<ListEntry>, last: Option<string>)
    ensures LastHeader(a + b, last) == LastHeader(b, LastHeader(a, last))
  {
    if |a| == 0 {
      assert a + b == b;
    } else {
      assert (a + b)[0] == a[0];
      assert (a + b)[1..] == a[1..] + b;
      LastHeaderAppend(a[1..], b, if a[0].Header? then Some(a[0].text) else last);
    }
  }

  /** One task's rows hold the task, announce its label if they start with a
      header, and leave `LabelAfter` as the last header. */
  lemma RowsForFacts(mode: SortModes.SortMode, x: TodoItem, tr: string -> string, last: Option<string>)
    ensures var p := RowsFor(mode, x, tr, last);
      ItemsOf(p) == [x] && LastHeader(p, last) == LabelAfter(mode, x, tr, last) &&
      HeadersMarkChanges(mode, tr, p, last) && NoHeaderNoChange(mode, tr, p, last)
  {
    var lbl := GroupLabel(mode, x, tr);
    var p := RowsFor(mode, x, tr, last);
    if lbl.Some? && last != lbl {
      assert p == [Header(lbl.value), Item(x)];
      assert p[1..] == [Item(x)] && p[1..][1..] == [];
      assert ItemsOf(p) == ItemsOf(p[1..]) == [x] + ItemsOf(p[1..][1..]);
      assert p[..0] == [] && p[..1] == [Header(lbl.value)];
      assert LastHeader(p[..1], last) == LastHeader([], lbl);
      assert LastHeader(p, last) == LastHeader(p[1..], lbl) == LastHeader([], lbl);
      assert HeadersMarkChanges(mode, tr, p, last);
      assert NoHeaderNoChange(mode, tr, p, last);
    } else {
      assert p[1..] == [] && p[..0] == [];
      assert LastHeader(p, last) == LastHeader([], last);
    }
  }

  /** Grouping only adds headers: the tasks come out as they went in. */
  lemma {:induction false} GroupedItems(mode: SortModes.SortMode, items: seq<TodoItem>, tr: string -> string, last: Option<string>)
    ensures ItemsOf(Grouped(mode, items, tr, last)) == items
  {
    if |items| > 0 {
      var p := RowsFor(mode, items[0], tr, last);
      var rest := Grouped(mode, items[1..], tr, LabelAfter(mode, items[0], tr, last));
      GroupedItems(mode, items[1..], tr, LabelAfter(mode, items[0], tr, last));
      RowsForFacts(mode, items[0], tr, last);
      ItemsOfAppend(p, rest);
      assert items == [items[0]] + items[1..];
    }
  }

  lemma HeadersMarkAt(mode: SortModes.SortMode, tr: string -> string, e: seq<ListEntry>, last: Option<string>, k: nat)
    requires HeadersMarkChanges(mode, tr, e, last)
    requires k < |e| && e[k].Header?
    ensures k + 1 < |e| && e[k + 1].Item? && GroupLabel(mode, e[k + 1].todo, tr) == Some(e[k].text)
    ensures LastHeader(e[..k], last) != Some(e[k].text)
  {
  }

  /** Header facts of two pieces carry over to the joined list. */
  lemma HeadersMarkChangesAppend(mode: SortModes.SortMode, tr: string -> string, p: seq<ListEntry>, rest: seq<ListEntry>, last: Option<string>)
    requires HeadersMarkChanges(mode, tr, p, last)
    requires HeadersMarkChanges(mode, tr, rest, LastHeader(p, last))
    ensures HeadersMarkChanges(mode, tr, p + rest, last)
  {
    var e := p + rest;
    forall k | 0 <= k < |e| && e[k].Header?
      ensures k + 1 < |e| && e[k + 1].Item? && GroupLabel(mode, e[k + 1].todo, tr) == Some(e[k].text) &&
              LastHeader(e[..k], last) != Some(e[k].text)
    {
      if k < |p| {
        HeadersMarkAt(mode, tr, p, last, k);
        assert e[k] == p[k] && e[k + 1] == p[k + 1] && e[..k] == p[..k];
      } else {
        var j := k - |p|;
        assert e[k] == rest[j];
        HeadersMarkAt(mode, tr, rest, LastHeader(p, last), j);
        assert e[k + 1] == rest[j + 1];
        assert e[..k] == p + rest[..j];
        LastHeaderAppend(p, rest[..j], last);
      }
    }
  }

  lemma NoHeaderNoChangeAt(mode: SortModes.SortMode, tr: string -> string, e: seq<ListEntry>, last: Option<string>, k: nat)
    requires NoHeaderNoChange(mode, tr, e, last)
    requires k < |e| && e[k].Item? && (k == 0 || !e[k - 1].Header?)
    ensures GroupLabel(mode, e[k].todo, tr).None? || GroupLabel(mode, e[k].todo, tr) == LastHeader(e[..k], last)
  {
  }

  lemma NoHeaderNoChangeAppend(mode: SortModes.SortMode, tr: string -> string, p: seq<ListEntry>, rest: seq<ListEntry>, last: Option<string>)
    requires NoHeaderNoChange(mode, tr, p, last)
    requires NoHeaderNoChange(mode, tr, rest, LastHeader(p, last))
    ensures NoHeaderNoChange(mode, tr, p + rest, last)
  {
    var e := p + rest;
    forall k | 0 <= k < |e| && e[k].Item? && (k == 0 || !e[k - 1].Header?)
      ensures GroupLabel(mode, e[k].todo, tr).None? || GroupLabel(mode, e[k].todo, tr) == LastHeader(e[..k], last)
    {
      if k < |p| {
        assert e[k] == p[k] && e[..k] == p[..k];
        assert k > 0 ==> e[k - 1] == p[k - 1];
        NoHeaderNoChangeAt(mode, tr, p, last, k);
      } else {
        var j := k - |p|;
        assert e[k] == rest[j];
        assert j > 0 ==> e[k - 1] == rest[j - 1];
        NoHeaderNoChangeAt(mode, tr, rest, LastHeader(p, last), j);
        assert e[..k] == p + rest[..j];
        LastHeaderAppend(p, rest[..j], last);
      }
    }
  }

  lemma {:induction false} GroupedHeadersMarkChanges(mode: SortModes.SortMode, items: seq<TodoItem>, tr: string -> string, last: Option<string>)
    ensures HeadersMarkChanges(mode, tr, Grouped(mode, items, tr, last), last)
  {
    if |items| > 0 {
      var after := LabelAfter(mode, items[0], tr, last);
      GroupedHeadersMarkChanges(mode, items[1..], tr, after);
      RowsForFacts(mode, items[0], tr, last);
      HeadersMarkChangesAppend(mode, tr, RowsFor(mode, items[0], tr, last), Grouped(mode, items[1..], tr, after), last);
    }
  }

  lemma {:induction false} GroupedNoHeaderNoChange(mode: SortModes.SortMode, items: seq<TodoItem>, tr: string -> string, last: Option<string>)
    ensures NoHeaderNoChange(mode, tr, Grouped(mode, items, tr, last), last)
  {
    if |items| > 0 {
      var after := LabelAfter(mode, items[0], tr, last);
      GroupedNoHeaderNoChange(mode, items[1..], tr, after);
      RowsForFacts(mode, items[0], tr, last);
      NoHeaderNoChangeAppend(mode, tr, RowsFor(mode, items[0], tr, last), Grouped(mode, items[1..], tr, after), last);
    }
  }

  /** Grouping emits a header at every label change and nowhere else. */
  lemma GroupedHeaders(mode: SortModes.SortMode, items: seq<TodoItem>, tr: string -> string, last: Option<string>)
    ensures HeadersAtLabelChanges(mode, tr, Grouped(mode, items, tr, last), last)
  {
    GroupedHeadersMarkChanges(mode, items, tr, last);
    GroupedNoHeaderNoChange(mode, items, tr, last);
  }

  /** Date mode has no labels, so its list has no headers. */
  lemma {:induction false} GroupedDateModeNoHeaders(items: seq<TodoItem>, tr: string -> string, last: Option<string>)
    ensures HeaderCount(Grouped(SortModes.Date, items, tr, last)) == 0
  {
    if |items| > 0 {
      GroupedDateModeNoHeaders(items[1..], tr, last);
      var e := Grouped(SortModes.Date, items, tr, last);
      assert e[1..] == Grouped(SortModes.Date, items[1..], tr, last);
    }
  }

  // ---------------------------------------------------------------------
  // Search buckets

  /** The task's lower-cased title contains the (lower-cased) search term. */
  predicate Matches(t: TodoItem, term: string) {
    Contains(Lower(t.title), term)
  }

  /** Some task of `s` has key `k` (the `any` over the first bucket). */
  predicate HasKey(s: seq<TodoItem>, k: TodoKey) {
    exists c :: c in s && c.key == k
  }

  /** Bucket 1: visible tasks whose title matches. */
  function CurrentResults(sorted: seq<TodoItem>, term: string, includeDone: bool, dueOnly: bool, today: Date): seq<TodoItem> {
    Filter(sorted, (t: TodoItem) => Visible(t, includeDone, dueOnly, today) && Matches(t, term))
  }

  /** Buckets 2 and 3: matching tasks with the given done flag, less those whose key is in bucket 1. */
  function OtherResults(sorted: seq<TodoItem>, term: string, done: bool, current: seq<TodoItem>): seq<TodoItem> {
    Filter(Filter(sorted, (t: TodoItem) => t.done == done && Matches(t, term)), (t: TodoItem) => !HasKey(current, t.key))
  }

  function AsItems(b: seq<TodoItem>): (r: seq<ListEntry>)
    ensures |r| == |b| && forall i :: 0 <= i < |b| ==> r[i] == Item(b[i])
  {
    if |b| == 0 then [] else [Item(b[0])] + AsItems(b[1..])
  }

  /** A bucket under its header; nothing at all when the bucket is empty. */
  function Section(header: string, b: seq<TodoItem>): seq<ListEntry> {
    if |b| == 0 then [] else [Header(header)] + AsItems(b)
  }

  // ---------------------------------------------------------------------
  // The whole list

  /** The three search buckets under their headers (the `else` branch). */
  function SearchEntries(sorted: seq<TodoItem>, term: string, includeDone: bool, dueOnly: bool,
                         today: Date, tr: string -> string): seq<ListEntry>
  {
    var current := CurrentResults(sorted, term, includeDone, dueOnly, today);
    Section(tr("search_results_current"), current) +
    Section(tr("search_results_open"), OtherResults(sorted, term, false, current)) +
    Section(tr("search_results_done"), OtherResults(sorted, term, true, current))
  }

  /** The rows `repopulate_store` appends, in order. */
  function BuildEntries(items: seq<TodoItem>, mode: SortModes.SortMode, searchTerm: string,
                        includeDone: bool, dueOnly: bool, today: Date, tr: string -> string): seq<ListEntry>
  {
    var sorted := SortBy(ComparatorFor(mode), items);
    var term := Lower(searchTerm);
    if term == "" then
      Grouped(mode, Filter(sorted, (t: TodoItem) => Visible(t, includeDone, dueOnly, today)), tr, None)
    else
      SearchEntries(sorted, term, includeDone, dueOnly, today, tr)
  }

  /** The first row holding the task with the previously selected key. */
  function SelectIndex(e: seq<ListEntry>, key: Option<TodoKey>): (r: Option<nat>)
    ensures r.Some? ==> r.value < |e| && e[r.value].Item? && Some(e[r.value].todo.key) == key
    ensures r.Some? ==> forall i :: 0 <= i < r.value ==> !(e[i].Item? && Some(e[i].todo.key) == key)
    ensures r.None? ==> forall i :: 0 <= i < |e| ==> !(e[i].Item? && Some(e[i].todo.key) == key)
  {
    if |e| == 0 || key.None? then None
    else if e[0].Item? && e[0].todo.key == key.value then Some(0)
    else match SelectIndex(e[1..], key)
      case None => None
      case Some(i) => Some(i + 1)
  }

  /** `repopulate_store` as a function of what it reads. */
  function BuildView(items: seq<TodoItem>, mode: SortModes.SortMode, searchTerm: string,
                     includeDone: bool, dueOnly: bool, today: Date, tr: string -> string,
                     previous: Option<TodoKey>): ViewResult
  {
    var e := BuildEntries(items, mode, searchTerm, includeDone, dueOnly, today, tr);
    ViewResult(e, SelectIndex(e, previous))
  }

  // ---------------------------------------------------------------------
  // Properties of the list

  /** Without a search term the list holds exactly the visible tasks, sorted,
      with a header at every label change and nowhere else. */
  lemma NonSearchList(items: seq<TodoItem>, mode: SortModes.SortMode, searchTerm: string,
                      includeDone: bool, dueOnly: bool, today: Date, tr: string -> string)
    requires Lower(searchTerm) == ""
    ensures var e := BuildEntries(items, mode, searchTerm, includeDone, dueOnly, today, tr);
      ItemsOf(e) == Filter(SortBy(ComparatorFor(mode), items), (t: TodoItem) => Visible(t, includeDone, dueOnly, today)) &&
      (forall t :: t in ItemsOf(e) ==> t in items && Visible(t, includeDone, dueOnly, today)) &&
      HeadersAtLabelChanges(mode, tr, e, None) &&
      (mode == SortModes.Date ==> HeaderCount(e) == 0)
  {
    var visible := Filter(SortBy(ComparatorFor(mode), items), (t: TodoItem) => Visible(t, includeDone, dueOnly, today));
    GroupedItems(mode, visible, tr, None);
    GroupedHeaders(mode, visible, tr, None);
    if mode == SortModes.Date {
      GroupedDateModeNoHeaders(visible, tr, None);
    }
    forall t | t in visible ensures t in items {
      assert t in multiset(SortBy(ComparatorFor(mode), items));
    }
  }

  /** Without a search term the listed tasks are in the order of the mode's comparator. */
  lemma NonSearchListSorted(items: seq<TodoItem>, mode: SortModes.SortMode, searchTerm: string,
                            includeDone: bool, dueOnly: bool, today: Date, tr: string -> string)
    requires Lower(searchTerm) == ""
    ensures Sorted(ComparatorFor(mode), ItemsOf(BuildEntries(items, mode, searchTerm, includeDone, dueOnly, today, tr)))
  {
    var sorted := SortBy(ComparatorFor(mode), items);
    var visible := Filter(sorted, (t: TodoItem) => Visible(t, includeDone, dueOnly, today));
    ComparatorForTotalPreorder(mode);
    SortBySorted(ComparatorFor(mode), items);
    GroupedItems(mode, visible, tr, None);
    FilterKeepsSorted(ComparatorFor(mode), sorted, (t: TodoItem) => Visible(t, includeDone, dueOnly, today));
  }

  lemma {:induction false} FilterKeepsSorted(cmp: (TodoItem, TodoItem) -> Ordering, s: seq<TodoItem>, p: TodoItem -> bool)
    requires Sorted(cmp, s)
    ensures Sorted(cmp, Filter(s, p))
  {
    if |s| > 0 {
      var tail := s[1..];
      SortedTail(cmp, s);
      FilterKeepsSorted(cmp, tail, p);
      if p(s[0]) {
        var ft := Filter(tail, p);
        assert Filter(s, p) == [s[0]] + ft;
        forall y | y in ft ensures cmp(s[0], y) != Greater {
          var j :| 0 <= j < |ft| && ft[j] == y;
        }
        SortedCons(cmp, s[0], ft);
      }
    }
  }

  lemma {:induction false} AsItemsFacts(b: seq<TodoItem>)
    ensures ItemsOf(AsItems(b)) == b && HeaderCount(AsItems(b)) == 0
  {
    if |b| > 0 {
      AsItemsFacts(b[1..]);
      assert AsItems(b)[1..] == AsItems(b[1..]);
    }
  }

  lemma SectionFacts(header: string, b: seq<TodoItem>)
    ensures ItemsOf(Section(header, b)) == b
    ensures HeaderCount(Section(header, b)) == (if |b| == 0 then 0 else 1)
  {
    AsItemsFacts(b);
    if |b| > 0 {
      assert Section(header, b)[1..] == AsItems(b);
    }
  }

  /** What each bucket holds: bucket 1 the visible matching tasks, bucket 2
      the open and bucket 3 the done matching tasks whose key is not in bucket 1. */
  lemma BucketContents(sorted: seq<TodoItem>, term: string, includeDone: bool, dueOnly: bool, today: Date)
    ensures var b1 := CurrentResults(sorted, term, includeDone, dueOnly, today);
      (forall t :: t in b1 <==> t in sorted && Visible(t, includeDone, dueOnly, today) && Matches(t, term))
    ensures var b1 := CurrentResults(sorted, term, includeDone, dueOnly, today);
      forall t :: t in OtherResults(sorted, term, false, b1) <==> t in sorted && !t.done && Matches(t, term) && !HasKey(b1, t.key)
    ensures var b1 := CurrentResults(sorted, term, includeDone, dueOnly, today);
      forall t :: t in OtherResults(sorted, term, true, b1) <==> t in sorted && t.done && Matches(t, term) && !HasKey(b1, t.key)
  {
  }

  /** The search rows are the three buckets in order, each under its header
      exactly when it is not empty. */
  lemma SearchEntriesShape(sorted: seq<TodoItem>, term: string, includeDone: bool, dueOnly: bool,
                           today: Date, tr: string -> string)
    ensures var b1 := CurrentResults(sorted, term, includeDone, dueOnly, today);
      var b2 := OtherResults(sorted, term, false, b1);
      var b3 := OtherResults(sorted, term, true, b1);
      var e := SearchEntries(sorted, term, includeDone, dueOnly, today, tr);
      ItemsOf(e) == b1 + b2 + b3 &&
      HeaderCount(e) == (if |b1| == 0 then 0 else 1) + (if |b2| == 0 then 0 else 1) + (if |b3| == 0 then 0 else 1)
  {
    var b1 := CurrentResults(sorted, term, includeDone, dueOnly, today);
    var b2 := OtherResults(sorted, term, false, b1);
    var b3 := OtherResults(sorted, term, true, b1);
    var s1 := Section(tr("search_results_current"), b1);
    var s2 := Section(tr("search_results_open"), b2);
    var s3 := Section(tr("search_results_done"), b3);
    SectionFacts(tr("search_results_current"), b1);
    SectionFacts(tr("search_results_open"), b2);
    SectionFacts(tr("search_results_done"), b3);
    ItemsOfAppend(s1 + s2, s3);
    ItemsOfAppend(s1, s2);
    HeaderCountAppend(s1 + s2, s3);
    HeaderCountAppend(s1, s2);
  }

  /** Two key-distinct lists that share no key join into a key-distinct list. */
  lemma ConcatKeysDistinct(a: seq<TodoItem>, b: seq<TodoItem>)
    requires KeysDistinct(a, (t: TodoItem) => t.key) && KeysDistinct(b, (t: TodoItem) => t.key)
    requires forall x, y :: x in a && y in b ==> x.key != y.key
    ensures KeysDistinct(a + b, (t: TodoItem) => t.key)
  {
    var ab := a + b;
    forall i, j | 0 <= i < j < |ab| ensures ab[i].key != ab[j].key {
      if j < |a| {
        assert ab[i] == a[i] && ab[j] == a[j];
      } else if i >= |a| {
        assert ab[i] == b[i - |a|] && ab[j] == b[j - |a|];
      } else {
        assert ab[i] in a && ab[j] == b[j - |a|];
      }
    }
  }

  /** Every bucket is key-distinct when the sorted tasks are. */
  lemma BucketsKeysDistinct(sorted: seq<TodoItem>, term: string, includeDone: bool, dueOnly: bool, today: Date)
    requires KeysDistinct(sorted, (t: TodoItem) => t.key)
    ensures var b1 := CurrentResults(sorted, term, includeDone, dueOnly, today);
      KeysDistinct(b1, (t: TodoItem) => t.key) &&
      KeysDistinct(OtherResults(sorted, term, false, b1), (t: TodoItem) => t.key) &&
      KeysDistinct(OtherResults(sorted, term, true, b1), (t: TodoItem) => t.key)
  {
    var key := (t: TodoItem) => t.key;
    var b1 := CurrentResults(sorted, term, includeDone, dueOnly, today);
    FilterKeepsKeysDistinct(sorted, (t: TodoItem) => Visible(t, includeDone, dueOnly, today) && Matches(t, term), key);
    FilterKeepsKeysDistinct(sorted, (t: TodoItem) => t.done == false && Matches(t, term), key);
    FilterKeepsKeysDistinct(sorted, (t: TodoItem) => t.done == true && Matches(t, term), key);
    FilterKeepsKeysDistinct(Filter(sorted, (t: TodoItem) => t.done == false && Matches(t, term)), (t: TodoItem) => !HasKey(b1, t.key), key);
    FilterKeepsKeysDistinct(Filter(sorted, (t: TodoItem) => t.done == true && Matches(t, term)), (t: TodoItem) => !HasKey(b1, t.key), key);
  }

  /** Two elements of a key-distinct list with the same key are the same element. */
  lemma SameKeySameItem(s: seq<TodoItem>, x: TodoItem, y: TodoItem)
    requires KeysDistinct(s, (t: TodoItem) => t.key)
    requires x in s && y in s && x.key == y.key
    ensures x == y
  {
    var a :| 0 <= a < |s| && s[a] == x;
    var b :| 0 <= b < |s| && s[b] == y;
    assert a == b;
  }

  /** With distinct keys in, no task is listed twice in the search rows. */
  lemma SearchEntriesNoDuplicates(sorted: seq<TodoItem>, term: string, includeDone: bool, dueOnly: bool,
                                  today: Date, tr: string -> string)
    requires KeysDistinct(sorted, (t: TodoItem) => t.key)
    ensures KeysDistinct(ItemsOf(SearchEntries(sorted, term, includeDone, dueOnly, today, tr)), (t: TodoItem) => t.key)
  {
    var b1 := CurrentResults(sorted, term, includeDone, dueOnly, today);
    var b2 := OtherResults(sorted, term, false, b1);
    var b3 := OtherResults(sorted, term, true, b1);
    SearchEntriesShape(sorted, term, includeDone, dueOnly, today, tr);
    BucketContents(sorted, term, includeDone, dueOnly, today);
    BucketsKeysDistinct(sorted, term, includeDone, dueOnly, today);
    ConcatKeysDistinct(b1, b2);
    forall x: TodoItem, y: TodoItem | x in b1 + b2 && y in b3 ensures x.key != y.key {
      if x in b2 && x.key == y.key {
        SameKeySameItem(sorted, x, y);
      }
    }
    ConcatKeysDistinct(b1 + b2, b3);
  }

  /** With a search term every task listed is one of the cached tasks whose
      lower-cased title contains the lower-cased term, and, when the cached
      tasks have distinct keys, none is listed twice. */
  lemma SearchList(items: seq<TodoItem>, mode: SortModes.SortMode, searchTerm: string,
                   includeDone: bool, dueOnly: bool, today: Date, tr: string -> string)
    requires Lower(searchTerm) != ""
    ensures forall t :: t in ItemsOf(BuildEntries(items, mode, searchTerm, includeDone, dueOnly, today, tr)) ==>
      t in items && Matches(t, Lower(searchTerm))
    ensures KeysDistinct(items, (t: TodoItem) => t.key) ==>
      KeysDistinct(ItemsOf(BuildEntries(items, mode, searchTerm, includeDone, dueOnly, today, tr)), (t: TodoItem) => t.key)
  {
    var term := Lower(searchTerm);
    var sorted := SortBy(ComparatorFor(mode), items);
    var b1 := CurrentResults(sorted, term, includeDone, dueOnly, today);
    var b2 := OtherResults(sorted, term, false, b1);
    var b3 := OtherResults(sorted, term, true, b1);
    assert BuildEntries(items, mode, searchTerm, includeDone, dueOnly, today, tr) == SearchEntries(sorted, term, includeDone, dueOnly, today, tr);
    SearchEntriesShape(sorted, term, includeDone, dueOnly, today, tr);
    BucketContents(sorted, term, includeDone, dueOnly, today);
    forall t | t in b1 + b2 + b3 ensures t in items && Matches(t, term) {
      assert t in sorted;
      assert t in multiset(sorted);
    }
    if KeysDistinct(items, (t: TodoItem) => t.key) {
      SortByKeepsKeysDistinct(ComparatorFor(mode), items, (t: TodoItem) => t.key);
      SearchEntriesNoDuplicates(sorted, term, includeDone, dueOnly, today, tr);
    }
  }

  /** Rebuilding with the key of the row just selected selects that row again. */
  lemma SelectionStable(items: seq<TodoItem>, mode: SortModes.SortMode, searchTerm: string,
                        includeDone: bool, dueOnly: bool, today: Date, tr: string -> string,
                        previous: Option<TodoKey>)
    requires BuildView(items, mode, searchTerm, includeDone, dueOnly, today, tr, previous).selected.Some?
    ensures var v := BuildView(items, mode, searchTerm, includeDone, dueOnly, today, tr, previous);
      BuildView(items, mode, searchTerm, includeDone, dueOnly, today, tr,
                Some(v.entries[v.selected.value].todo.key)) == v
  {
  }

  /** The previously selected task is selected again whenever it is still listed. */
  lemma SelectionRestored(items: seq<TodoItem>, mode: SortModes.SortMode, searchTerm: string,
                          includeDone: bool, dueOnly: bool, today: Date, tr: string -> string,
                          previous: TodoKey)
    requires exists t :: t in ItemsOf(BuildEntries(items, mode, searchTerm, includeDone, dueOnly, today, tr)) && t.key == previous
    ensures var v := BuildView(items, mode, searchTerm, includeDone, dueOnly, today, tr, Some(previous));
      v.selected.Some? && v.entries[v.selected.value].todo.key == previous
  {
    var e := BuildEntries(items, mode, searchTerm, includeDone, dueOnly, today, tr);
    var t :| t in ItemsOf(e) && t.key == previous;
    ItemInEntries(e, t);
  }

  lemma {:induction false} ItemInEntries(e: seq<ListEntry>, t: TodoItem)
    requires t in ItemsOf(e)
    ensures exists k :: 0 <= k < |e| && e[k] == Item(t)
  {
    if e[0] == Item(t) {
    } else {
      assert t in ItemsOf(e[1..]);
      ItemInEntries(e[1..], t);
      var k :| 0 <= k < |e[1..]| && e[1..][k] == Item(t);
      assert e[k + 1] == Item(t);
    }
  }
}
