/** The desktop window's state (`AppState`) and the rules that change it:
    reloading from the store and the fingerprint-gated poll with its back-off,
    completing a task (with the next occurrence of a recurring one), the
    preference setters that do nothing when the value is unchanged, the
    file-monitor rule, and the voice toggle and drain. The unseen `data` module
    is a collaborator object whose answers are fixed values and which logs
    every call it receives. */
module App {
  import opened Wrappers
  import opened Text
  import opened Dates
  import opened Tasks
  import opened Toasts
  import opened Seqs
  import opened Sorting
  import opened Compare
  import opened View
  import opened Voice
  import SortModes

  /** The `Result<()>` of the app's operations. */
  datatype Status = Success | Failure(error: string)

  /** `data::BackendConfig`. */
  datatype BackendConfig =
    | Local(path: string)
    | WebDav(url: string, remotePath: Option<string>, username: Option<string>, password: Option<string>)

  /** The calls the app makes into the `data` module. */
  datatype DataCall =
    | LoadTodos
    | GetFingerprint
    | UpdateDetails(item: TodoItem)
    | ToggleTodo(key: TodoKey, done: bool)
    | AddTodoFull(item: TodoItem)
    | SetBackendConfig(config: BackendConfig)

  /** The stored preferences (`Preferences`). */
  datatype Preferences = Preferences(
    sortMode: Option<string>,
    showDone: bool,
    dbPath: Option<string>,
    showDueOnly: bool,
    useWebdav: bool,
    webdavUrl: Option<string>,
    webdavPath: Option<string>,
    webdavUsername: Option<string>,
    webdavPassword: Option<string>,
    useWhisper: bool,
    whisperLanguage: string
  )

  /** The events a `gio::FileMonitor` reports. */
  datatype MonitorEvent =
    | Changed | ChangesDoneHint | Deleted | Created | AttributeChanged
    | PreUnmount | Unmounted | Moved | Renamed | MovedIn | MovedOut

  /** The file monitor reloads on these events. */
  predicate ShouldReload(e: MonitorEvent) {
    e.Changed? || e.ChangesDoneHint? || e.Created? || e.Deleted? || e.Moved? || e.Renamed? || e.AttributeChanged?
  }

  /** After a successful reload, these events are announced. */
  predicate AnnouncesChange(e: MonitorEvent) {
    e.ChangesDoneHint? || e.Changed? || e.Created?
  }

  /** Every announced event is one that reloads; mounts and moves in or out of the directory do neither. */
  lemma MonitorRules(e: MonitorEvent)
    ensures AnnouncesChange(e) ==> ShouldReload(e)
    ensures e.PreUnmount? || e.Unmounted? || e.MovedIn? || e.MovedOut? <==> !ShouldReload(e)
  {
  }

  // ---------------------------------------------------------------------
  // Poll back-off

  /** `schedule_poll`: 10 s after a successful check, else twice the wait, at most 300 s. */
  function NextInterval(interval: nat, ok: bool): (r: nat)
    ensures ok ==> r == 10
    ensures !ok ==> r <= 300 && r <= 2 * interval && (r == 300 || r == 2 * interval)
  {
    if ok then 10 else if 2 * interval < 300 then 2 * interval else 300
  }

  function Pow2(k: nat): nat {
    if k == 0 then 1 else 2 * Pow2(k - 1)
  }

  /** The wait after a run of checks with these outcomes, starting from `interval`. */
  function IntervalAfter(interval: nat, outcomes: seq<bool>): nat
    decreases |outcomes|
  {
    if |outcomes| == 0 then interval
    else IntervalAfter(NextInterval(interval, outcomes[0]), outcomes[1..])
  }

  /** Started at 10 s, the wait stays between 10 s and 300 s whatever the checks do. */
  lemma {:induction false} IntervalBounded(interval: nat, outcomes: seq<bool>)
    requires 10 <= interval <= 300
    ensures 10 <= IntervalAfter(interval, outcomes) <= 300
    decreases |outcomes|
  {
    if |outcomes| > 0 {
      IntervalBounded(NextInterval(interval, outcomes[0]), outcomes[1..]);
    }
  }

  /** `x` limited to the 300 s ceiling. */
  function Cap(x: nat): nat {
    if x < 300 then x else 300
  }

  /** After `k` failed checks in a row from 10 s the wait is `min(10 * 2^k, 300)`. */
  lemma IntervalAfterFailures(k: nat)
    ensures IntervalAfter(10, seq(k, _ => false)) == Cap(10 * Pow2(k))
  {
    FailuresFrom(0, k);
  }

  lemma {:induction false} FailuresFrom(j: nat, k: nat)
    ensures IntervalAfter(Cap(10 * Pow2(j)), seq(k, _ => false)) == Cap(10 * Pow2(j + k))
    decreases k
  {
    var fails := seq(k, _ => false);
    if k > 0 {
      assert fails[0] == false && fails[1..] == seq(k - 1, _ => false);
      assert Pow2(j + 1) == 2 * Pow2(j);
      assert NextInterval(Cap(10 * Pow2(j)), false) == Cap(10 * Pow2(j + 1));
      FailuresFrom(j + 1, k - 1);
    } else {
      assert fails == [];
    }
  }

  // ---------------------------------------------------------------------
  // Completing a task

  /** `toggle_item`'s first write: a recurring task completed after its due date
      is rewritten as done today; every other toggle is a plain toggle. */
  function ToggleWrite(todo: TodoItem, done: bool, today: Date): (c: DataCall)
    ensures c.UpdateDetails? <==> done && todo.recurrence.Some? && todo.due.Some? && Before(todo.due.value, today)
    ensures c.UpdateDetails? ==> c.item == todo.(due := Some(today), done := true)
    ensures c.ToggleTodo? ==> c.key == todo.key && c.done == done
  {
    if done && todo.due.Some? && Before(todo.due.value, today) && todo.recurrence.Some? then
      UpdateDetails(todo.(due := Some(today), done := true))
    else
      ToggleTodo(todo.key, done)
  }

  /** The next occurrence: a fresh, open copy of the task due on `next`. */
  function NextOccurrence(todo: TodoItem, next: Date): (t: TodoItem)
    ensures t.key == TodoKey(0, None) && !t.done && t.due == Some(next)
    ensures t.title == todo.title && t.section == todo.section && t.project == todo.project &&
            t.context == todo.context && t.recurrence == todo.recurrence && t.reference == todo.reference
  {
    todo.(key := TodoKey(0, None), done := false, due := Some(next))
  }

  /** The notice after a toggle. */
  function ToggleNotice(todo: TodoItem, done: bool): (s: string)
    ensures done ==> s == "Erledigt: " + todo.title
    ensures !done ==> s == "Reaktiviert: " + todo.title
  {
    (if done then "Erledigt: " else "Reaktiviert: ") + todo.title
  }

  // ---------------------------------------------------------------------
  // Filling the list store

  /** Appends one search bucket under its header, when it is not empty. */
  method AppendSection(rows: seq<ListEntry>, header: string, bucket: seq<TodoItem>) returns (r: seq<ListEntry>)
    ensures r == rows + Section(header, bucket)
  {
    if |bucket| == 0 {
      return rows;
    }
    var prefix := rows + [Header(header)];
    r := prefix;
    var i := 0;
    while i < |bucket|
      invariant 0 <= i <= |bucket|
      invariant r == prefix + AsItems(bucket[..i])
    {
      AsItemsSnoc(bucket, i);
      r := r + [Item(bucket[i])];
      i := i + 1;
    }
    assert bucket[..i] == bucket;
    assert rows + Section(header, bucket) == prefix + AsItems(bucket);
  }

  /** One more task of the bucket, one more row. */
  lemma AsItemsSnoc(bucket: seq<TodoItem>, i: nat)
    requires i < |bucket|
    ensures AsItems(bucket[..i + 1]) == AsItems(bucket[..i]) + [Item(bucket[i])]
  {
    var a := AsItems(bucket[..i + 1]);
    var b := AsItems(bucket[..i]) + [Item(bucket[i])];
    assert |a| == |b|;
    forall j | 0 <= j < |a| ensures a[j] == b[j] {
      if j < i {
        assert a[j] == Item(bucket[..i + 1][j]);
      }
    }
  }

  /** The loop without a search term: visible tasks in order, a header
      before each task whose group label differs from the last header's. */
  method AppendGrouped(rows: seq<ListEntry>, mode: SortModes.SortMode, items: seq<TodoItem>, tr: string -> string,
                       includeDone: bool, dueOnly: bool, today: Date) returns (r: seq<ListEntry>)
    ensures r == rows + Grouped(mode, Filter(items, (t: TodoItem) => Visible(t, includeDone, dueOnly, today)), tr, None)
  {
    ghost var visible := (t: TodoItem) => Visible(t, includeDone, dueOnly, today);
    ghost var goal := rows + Grouped(mode, Filter(items, visible), tr, None);
    r := rows;
    var last: Option<string> := None;
    var i := 0;
    assert items[0..] == items;
    while i < |items|
      invariant 0 <= i <= |items|
      invariant r + Grouped(mode, Filter(items[i..], visible), tr, last) == goal
    {
      var item := items[i];
      AppendGroupedStep(mode, items, i, visible, tr, last, r, goal);
      if Visible(item, includeDone, dueOnly, today) {
        var lbl := GroupLabel(mode, item, tr);
        if lbl.Some? && last != lbl {
          r := r + [Header(lbl.value), Item(item)];
          last := lbl;
        } else {
          r := r + [Item(item)];
        }
      }
      i := i + 1;
    }
    assert r == r + Grouped(mode, Filter(items[i..], visible), tr, last);
  }

  /** What one turn of the grouping loop appends keeps the rows plus the
      rows still to come equal to the whole list. */
  lemma AppendGroupedStep(mode: SortModes.SortMode, items: seq<TodoItem>, i: nat, visible: TodoItem -> bool,
                          tr: string -> string, last: Option<string>, r: seq<ListEntry>, goal: seq<ListEntry>)
    requires i < |items| && r + Grouped(mode, Filter(items[i..], visible), tr, last) == goal
    ensures var lbl := GroupLabel(mode, items[i], tr);
      if !visible(items[i]) then r + Grouped(mode, Filter(items[i + 1..], visible), tr, last) == goal
      else if lbl.Some? && last != lbl then (r + [Header(lbl.value), Item(items[i])]) + Grouped(mode, Filter(items[i + 1..], visible), tr, lbl) == goal
      else (r + [Item(items[i])]) + Grouped(mode, Filter(items[i + 1..], visible), tr, last) == goal
  {
    var rest := Filter(items[i + 1..], visible);
    FilterAt(items, i, visible);
    if visible(items[i]) {
      assert Filter(items[i..], visible) == [items[i]] + rest;
      GroupedConsAppended(mode, items[i], rest, tr, last, r);
    } else {
      assert Filter(items[i..], visible) == rest;
    }
  }

  lemma GroupedConsAppended(mode: SortModes.SortMode, x: TodoItem, rest: seq<TodoItem>, tr: string -> string, last: Option<string>, r: seq<ListEntry>)
    ensures var lbl := GroupLabel(mode, x, tr);
      r + Grouped(mode, [x] + rest, tr, last) ==
        if lbl.Some? && last != lbl then (r + [Header(lbl.value), Item(x)]) + Grouped(mode, rest, tr, lbl)
        else (r + [Item(x)]) + Grouped(mode, rest, tr, last)
  {
    GroupedCons(mode, x, rest, tr, last);
  }

  /** The tasks from position `i` on that pass `p`: the one at `i` if it does, then the rest. */
  lemma FilterAt(items: seq<TodoItem>, i: nat, p: TodoItem -> bool)
    requires i < |items|
    ensures Filter(items[i..], p) == (if p(items[i]) then [items[i]] else []) + Filter(items[i + 1..], p)
  {
    assert items[i..][0] == items[i] && items[i..][1..] == items[i + 1..];
  }

  /** The rows of a first task, then those of the rest. */
  lemma GroupedCons(mode: SortModes.SortMode, x: TodoItem, rest: seq<TodoItem>, tr: string -> string, last: Option<string>)
    ensures var lbl := GroupLabel(mode, x, tr);
      Grouped(mode, [x] + rest, tr, last) ==
        if lbl.Some? && last != lbl then [Header(lbl.value), Item(x)] + Grouped(mode, rest, tr, lbl)
        else [Item(x)] + Grouped(mode, rest, tr, last)
  {
    assert ([x] + rest)[0] == x && ([x] + rest)[1..] == rest;
  }

  /** The rows of `repopulate_store`: grouped visible tasks, or the three search buckets. */
  method FillRows(items: seq<TodoItem>, mode: SortModes.SortMode, searchTerm: string,
                  includeDone: bool, dueOnly: bool, today: Date, tr: string -> string) returns (r: seq<ListEntry>)
    ensures r == BuildEntries(items, mode, searchTerm, includeDone, dueOnly, today, tr)
  {
    var sorted := SortBy(ComparatorFor(mode), items);
    var term := Lower(searchTerm);
    if term == "" {
      r := AppendGrouped([], mode, sorted, tr, includeDone, dueOnly, today);
      assert r == Grouped(mode, Filter(sorted, (t: TodoItem) => Visible(t, includeDone, dueOnly, today)), tr, None);
    } else {
      var current := CurrentResults(sorted, term, includeDone, dueOnly, today);
      var open := OtherResults(sorted, term, false, current);
      var done := OtherResults(sorted, term, true, current);
      r := AppendSection([], tr("search_results_current"), current);
      assert r == Section(tr("search_results_current"), current);
      r := AppendSection(r, tr("search_results_open"), open);
      r := AppendSection(r, tr("search_results_done"), done);
      assert r == SearchEntries(sorted, term, includeDone, dueOnly, today, tr);
    }
  }

  /** The position of the first row holding the task with key `previous`. */
  method FindRow(rows: seq<ListEntry>, previous: Option<TodoKey>) returns (r: Option<nat>)
    ensures r == SelectIndex(rows, previous)
  {
    r := None;
    var k := 0;
    while k < |rows| && r.None?
      invariant 0 <= k <= |rows|
      invariant r.None? ==> forall j :: 0 <= j < k ==> !(rows[j].Item? && Some(rows[j].todo.key) == previous)
      invariant r.Some? ==> r == SelectIndex(rows, previous)
    {
      if rows[k].Item? && Some(rows[k].todo.key) == previous {
        r := Some(k);
      }
      k := k + 1;
    }
  }

  // ---------------------------------------------------------------------
  // The data module

  /** The `data` module as the app sees it: fixed answers, and the calls received. */
  class DataBackend {
    const loaded: Result<seq<TodoItem>>
    const fingerprint: Result<string>
    const writeStatus: Status
    const addStatus: Status
    const todoPath: string
    /** `next_due_date(due, rule)`. */
    const nextDueDate: (Option<Date>, string) -> Option<Date>
    var calls: seq<DataCall>

    constructor (loaded: Result<seq<TodoItem>>, fingerprint: Result<string>, writeStatus: Status,
                 addStatus: Status, todoPath: string, nextDueDate: (Option<Date>, string) -> Option<Date>)
      ensures this.loaded == loaded && this.fingerprint == fingerprint && this.writeStatus == writeStatus
      ensures this.addStatus == addStatus && this.todoPath == todoPath && this.nextDueDate == nextDueDate
      ensures calls == []
    {
      this.loaded := loaded;
      this.fingerprint := fingerprint;
      this.writeStatus := writeStatus;
      this.addStatus := addStatus;
      this.todoPath := todoPath;
      this.nextDueDate := nextDueDate;
      calls := [];
    }

    method Load() returns (r: Result<seq<TodoItem>>)
      modifies this`calls
      ensures r == loaded && calls == old(calls) + [LoadTodos]
    {
      calls := calls + [LoadTodos];
      r := loaded;
    }

    method Fingerprint() returns (r: Result<string>)
      modifies this`calls
      ensures r == fingerprint && calls == old(calls) + [GetFingerprint]
    {
      calls := calls + [GetFingerprint];
      r := fingerprint;
    }

    /** `update_todo_details` or `toggle_todo`. */
    method Write(c: DataCall) returns (s: Status)
      requires c.UpdateDetails? || c.ToggleTodo?
      modifies this`calls
      ensures s == writeStatus && calls == old(calls) + [c]
    {
      calls := calls + [c];
      s := writeStatus;
    }

    /** The call `toggle_item` adds for a completed recurring task whose next
        due date exists: the task's next occurrence; otherwise none. */
    function RecurrenceAdds(todo: TodoItem, done: bool): (r: seq<DataCall>)
      ensures |r| <= 1
      ensures |r| == 1 <==> done && todo.recurrence.Some? && nextDueDate(todo.due, todo.recurrence.value).Some?
      ensures |r| == 1 ==> r[0] == AddTodoFull(NextOccurrence(todo, nextDueDate(todo.due, todo.recurrence.value).value))
    {
      if done && todo.recurrence.Some? && nextDueDate(todo.due, todo.recurrence.value).Some? then
        [AddTodoFull(NextOccurrence(todo, nextDueDate(todo.due, todo.recurrence.value).value))]
      else []
    }

    method AddFull(item: TodoItem) returns (s: Status)
      modifies this`calls
      ensures s == addStatus && calls == old(calls) + [AddTodoFull(item)]
    {
      calls := calls + [AddTodoFull(item)];
      s := addStatus;
    }

    method SetBackend(config: BackendConfig)
      modifies this`calls
      ensures calls == old(calls) + [SetBackendConfig(config)]
    {
      calls := calls + [SetBackendConfig(config)];
    }
  }

  /** The WebDAV configuration the preferences describe, when a URL is set. */
  function WebDavConfig(p: Preferences): (c: Option<BackendConfig>)
    ensures c.Some? <==> p.webdavUrl.Some?
    ensures c.Some? ==>
      c.value.WebDav? && c.value.url == p.webdavUrl.value && c.value.remotePath == p.webdavPath &&
      c.value.username == p.webdavUsername && c.value.password == p.webdavPassword
  {
    match p.webdavUrl
    case Some(u) => Some(WebDav(u, p.webdavPath, p.webdavUsername, p.webdavPassword))
    case None => None
  }

  /** The back-end calls `set_use_webdav` makes once the flag is stored: the
      local file when WebDAV is off, WebDAV when it is on and a URL is set,
      nothing when it is on without a URL. */
  function SwitchCalls(p: Preferences, todoPath: string): (r: seq<DataCall>)
    ensures !p.useWebdav ==> r == [SetBackendConfig(Local(todoPath))]
    ensures p.useWebdav && p.webdavUrl.None? ==> r == []
    ensures p.useWebdav && p.webdavUrl.Some? ==>
      r == [SetBackendConfig(WebDav(p.webdavUrl.value, p.webdavPath, p.webdavUsername, p.webdavPassword))]
  {
    if p.useWebdav then
      match WebDavConfig(p)
      case Some(c) => [SetBackendConfig(c)]
      case None => []
    else [SetBackendConfig(Local(todoPath))]
  }

  // ---------------------------------------------------------------------
  // The window state

  class AppState {
    const data: DataBackend
    const tr: string -> string
    var cachedItems: seq<TodoItem>
    var lastFingerprint: Option<string>
    var sortMode: SortModes.SortMode
    var preferences: Preferences
    /** Every preferences record written to disk, in order. */
    var persisted: seq<Preferences>
    var searchTerm: string
    var store: seq<ListEntry>
    var selected: Option<nat>
    var isRecording: bool
    /** The whisper model file exists. */
    var modelPresent: bool
    /** The text of the entry field voice input writes to. */
    var entryText: string
    var toasts: seq<Toast>

    /** The fields `AppState::new` sets; the sort mode read from the preferences
        is written back in its canonical form. */
    constructor (data: DataBackend, tr: string -> string, prefs: Preferences, modelPresent: bool)
      ensures this.data == data && this.tr == tr && this.modelPresent == modelPresent
      ensures sortMode == (if prefs.sortMode.Some? then SortModes.FromKey(prefs.sortMode.value) else SortModes.Topic)
      ensures preferences == prefs.(sortMode := Some(SortModes.AsKey(sortMode)))
      ensures cachedItems == [] && lastFingerprint == None && searchTerm == "" && store == [] && selected == None
      ensures !isRecording && entryText == "" && persisted == [] && toasts == []
    {
      this.data := data;
      this.tr := tr;
      var mode := if prefs.sortMode.Some? then SortModes.FromKey(prefs.sortMode.value) else SortModes.Topic;
      sortMode := mode;
      preferences := prefs.(sortMode := Some(SortModes.AsKey(mode)));
      persisted := [];
      cachedItems := [];
      lastFingerprint := None;
      searchTerm := "";
      store := [];
      selected := None;
      isRecording := false;
      this.modelPresent := modelPresent;
      entryText := "";
      toasts := [];
    }

    /** The key of the selected row, when it holds a task. */
    function SelectedKey(): Option<TodoKey>
      reads this
    {
      if selected.Some? && selected.value < |store| && store[selected.value].Item? then
        Some(store[selected.value].todo.key)
      else None
    }

    /** The view `repopulate_store` builds from the current state. */
    function CurrentView(today: Date, previous: Option<TodoKey>): ViewResult
      reads this
    {
      BuildView(cachedItems, sortMode, searchTerm, preferences.showDone, preferences.showDueOnly, today, tr, previous)
    }

    /** `repopulate_store`: rebuild the rows and select the previously selected task again. */
    method RepopulateStore(today: Date)
      modifies this`store, this`selected
      ensures var v := CurrentView(today, old(SelectedKey()));
        store == v.entries && selected == v.selected
    {
      var previous := SelectedKey();
      var rows := FillRows(cachedItems, sortMode, searchTerm, preferences.showDone, preferences.showDueOnly, today, tr);
      var position := FindRow(rows, previous);
      store := rows;
      selected := position;
    }

    /** The tasks, fingerprint, rows and selection are as they were. */
    twostate predicate ViewKept()
      reads this
    {
      cachedItems == old(cachedItems) && lastFingerprint == old(lastFingerprint) &&
      store == old(store) && selected == old(selected)
    }

    /** What `reload` leaves: after a successful load the loaded tasks, the
        fingerprint when it could be read, and the rows and selection rebuilt
        around the previously selected task; after a failed one, the state as it was. */
    twostate predicate Reloaded(today: Date)
      reads this
    {
      if data.loaded.Ok? then
        cachedItems == data.loaded.value &&
        lastFingerprint == (if data.fingerprint.Ok? then Some(data.fingerprint.value) else old(lastFingerprint)) &&
        var v := CurrentView(today, old(SelectedKey()));
        store == v.entries && selected == v.selected
      else ViewKept()
    }

    /** `reload`: load the tasks, remember the fingerprint when it can be read, rebuild the rows. */
    method Reload(today: Date) returns (s: Status)
      modifies this`cachedItems, this`lastFingerprint, this`store, this`selected, data`calls
      ensures s.Success? <==> data.loaded.Ok?
      ensures s.Failure? ==>
        s.error == data.loaded.error && data.calls == old(data.calls) + [LoadTodos] &&
        cachedItems == old(cachedItems) && lastFingerprint == old(lastFingerprint) &&
        store == old(store) && selected == old(selected)
      ensures s.Success? ==>
        data.calls == old(data.calls) + [LoadTodos, GetFingerprint] &&
        cachedItems == data.loaded.value &&
        lastFingerprint == (if data.fingerprint.Ok? then Some(data.fingerprint.value) else old(lastFingerprint)) &&
        var v := CurrentView(today, old(SelectedKey()));
        store == v.entries && selected == v.selected
      ensures Reloaded(today)
    {
      ghost var previous := SelectedKey();
      var r := data.Load();
      if r.Err? {
        return Failure(r.error);
      }
      cachedItems := r.value;
      var fp := data.Fingerprint();
      if fp.Ok? {
        lastFingerprint := Some(fp.value);
      }
      assert SelectedKey() == previous;
      RepopulateStore(today);
      s := Success;
    }

    /** `check_for_updates`: reload only when the fingerprint can be read and
        differs from the last one; the call log shows what happened. */
    method CheckForUpdates(today: Date) returns (s: Status)
      modifies this`cachedItems, this`lastFingerprint, this`store, this`selected, data`calls
      ensures data.fingerprint.Err? ==>
        s == Failure(data.fingerprint.error) && data.calls == old(data.calls) + [GetFingerprint] && ViewKept()
      ensures data.fingerprint.Ok? && Some(data.fingerprint.value) == old(lastFingerprint) ==>
        s == Success && data.calls == old(data.calls) + [GetFingerprint] && ViewKept()
      ensures data.fingerprint.Ok? && Some(data.fingerprint.value) != old(lastFingerprint) ==>
        (s.Success? <==> data.loaded.Ok?) &&
        data.calls == old(data.calls) + [GetFingerprint, LoadTodos] + (if data.loaded.Ok? then [GetFingerprint] else []) &&
        Reloaded(today)
      ensures s.Success? ==> lastFingerprint == (if data.fingerprint.Ok? then Some(data.fingerprint.value) else old(lastFingerprint))
    {
      var fp := data.Fingerprint();
      if fp.Err? {
        return Failure(fp.error);
      }
      if Some(fp.value) != lastFingerprint {
        assert ViewKept() && SelectedKey() == old(SelectedKey());
        s := Reload(today);
      } else {
        s := Success;
      }
    }

    /** One run of the poll timer: check, then the wait before the next run. */
    method PollTick(interval: nat, today: Date) returns (s: Status, next: nat)
      modifies this`cachedItems, this`lastFingerprint, this`store, this`selected, data`calls
      ensures next == NextInterval(interval, s.Success?)
      ensures s.Success? <==> data.fingerprint.Ok? && (Some(data.fingerprint.value) == old(lastFingerprint) || data.loaded.Ok?)
      ensures data.fingerprint.Ok? && Some(data.fingerprint.value) != old(lastFingerprint) ==> Reloaded(today)
      ensures !(data.fingerprint.Ok? && Some(data.fingerprint.value) != old(lastFingerprint)) ==> ViewKept()
    {
      s := CheckForUpdates(today);
      next := NextInterval(interval, s.Success?);
    }

    /** The part of `toggle_item` that adds the next occurrence of a completed
        recurring task; its status is ignored. */
    method AddRecurrence(todo: TodoItem, done: bool)
      modifies data`calls
      ensures data.calls == old(data.calls) + data.RecurrenceAdds(todo, done)
    {
      if done && todo.recurrence.Some? {
        var next := data.nextDueDate(todo.due, todo.recurrence.value);
        if next.Some? {
          var added := data.AddFull(NextOccurrence(todo, next.value));
        }
      }
    }

    /** `toggle_item`: write the toggle, add the next occurrence of a completed
        recurring task (a failure there is ignored), reload and announce. */
    method ToggleItem(todo: TodoItem, done: bool, today: Date) returns (s: Status)
      modifies this`cachedItems, this`lastFingerprint, this`store, this`selected, this`toasts, data`calls
      ensures data.writeStatus.Failure? ==>
        s == data.writeStatus && data.calls == old(data.calls) + [ToggleWrite(todo, done, today)] &&
        toasts == old(toasts) && ViewKept()
      ensures data.writeStatus.Success? ==>
        (s.Success? <==> data.loaded.Ok?) &&
        data.calls == old(data.calls) + [ToggleWrite(todo, done, today)] + data.RecurrenceAdds(todo, done) +
          [LoadTodos] + (if data.loaded.Ok? then [GetFingerprint] else []) &&
        Reloaded(today)
      ensures s.Success? ==> toasts == old(toasts) + [Info(ToggleNotice(todo, done))]
      ensures s.Failure? ==> toasts == old(toasts)
    {
      var w := data.Write(ToggleWrite(todo, done, today));
      if w.Failure? {
        return w;
      }
      AddRecurrence(todo, done);
      ghost var added := data.calls;
      assert ViewKept() && SelectedKey() == old(SelectedKey());
      s := Reload(today);
      assert data.calls == added + [LoadTodos] + (if data.loaded.Ok? then [GetFingerprint] else []);
      if s.Failure? {
        return s;
      }
      toasts := toasts + [Info(ToggleNotice(todo, done))];
    }

    /** `set_show_completed`: nothing happens when the value is unchanged. */
    method SetShowCompleted(show: bool, today: Date)
      modifies this`preferences, this`persisted, this`store, this`selected
      ensures old(preferences.showDone) == show ==>
        preferences == old(preferences) && persisted == old(persisted) && store == old(store) && selected == old(selected)
      ensures old(preferences.showDone) != show ==>
        preferences == old(preferences).(showDone := show) && persisted == old(persisted) + [preferences] &&
        var v := CurrentView(today, old(SelectedKey()));
        store == v.entries && selected == v.selected
    {
      if preferences.showDone == show {
        return;
      }
      preferences := preferences.(showDone := show);
      persisted := persisted + [preferences];
      RepopulateStore(today);
    }

    /** `set_show_due_only`: nothing happens when the value is unchanged. */
    method SetShowDueOnly(show: bool, today: Date)
      modifies this`preferences, this`persisted, this`store, this`selected
      ensures old(preferences.showDueOnly) == show ==>
        preferences == old(preferences) && persisted == old(persisted) && store == old(store) && selected == old(selected)
      ensures old(preferences.showDueOnly) != show ==>
        preferences == old(preferences).(showDueOnly := show) && persisted == old(persisted) + [preferences] &&
        var v := CurrentView(today, old(SelectedKey()));
        store == v.entries && selected == v.selected
    {
      if preferences.showDueOnly == show {
        return;
      }
      preferences := preferences.(showDueOnly := show);
      persisted := persisted + [preferences];
      RepopulateStore(today);
    }

    /** `set_sort_mode`: nothing happens when the mode is unchanged; otherwise
        the mode's key is stored and the rows are rebuilt. */
    method SetSortMode(mode: SortModes.SortMode, today: Date)
      modifies this`sortMode, this`preferences, this`persisted, this`store, this`selected
      ensures old(sortMode) == mode ==>
        sortMode == old(sortMode) && preferences == old(preferences) && persisted == old(persisted) &&
        store == old(store) && selected == old(selected)
      ensures old(sortMode) != mode ==>
        sortMode == mode && preferences == old(preferences).(sortMode := Some(SortModes.AsKey(mode))) &&
        persisted == old(persisted) + [preferences] &&
        var v := CurrentView(today, old(SelectedKey()));
        store == v.entries && selected == v.selected
    {
      if sortMode == mode {
        return;
      }
      sortMode := mode;
      preferences := preferences.(sortMode := Some(SortModes.AsKey(mode)));
      persisted := persisted + [preferences];
      RepopulateStore(today);
    }

    /** `set_whisper_language`: nothing happens when the language is unchanged. */
    method SetWhisperLanguage(language: string)
      modifies this`preferences, this`persisted
      ensures old(preferences.whisperLanguage) == language ==>
        preferences == old(preferences) && persisted == old(persisted)
      ensures old(preferences.whisperLanguage) != language ==>
        preferences == old(preferences).(whisperLanguage := language) && persisted == old(persisted) + [preferences]
    {
      if preferences.whisperLanguage == language {
        return;
      }
      preferences := preferences.(whisperLanguage := language);
      persisted := persisted + [preferences];
    }

    /** `set_use_whisper`: nothing happens when the value is unchanged; turning
        voice input off deletes the model file. */
    method SetUseWhisper(useWhisper: bool)
      modifies this`preferences, this`persisted, this`modelPresent
      ensures old(preferences.useWhisper) == useWhisper ==>
        preferences == old(preferences) && persisted == old(persisted) && modelPresent == old(modelPresent)
      ensures old(preferences.useWhisper) != useWhisper ==>
        preferences == old(preferences).(useWhisper := useWhisper) && persisted == old(persisted) + [preferences] &&
        modelPresent == (useWhisper && old(modelPresent))
    {
      if preferences.useWhisper == useWhisper {
        return;
      }
      preferences := preferences.(useWhisper := useWhisper);
      persisted := persisted + [preferences];
      if !useWhisper {
        modelPresent := false;
      }
    }

    /** Hands the back end the configuration the preferences select. */
    method SwitchBackend()
      modifies data`calls
      ensures data.calls == old(data.calls) + SwitchCalls(preferences, data.todoPath)
    {
      if preferences.useWebdav {
        var c := WebDavConfig(preferences);
        if c.Some? {
          data.SetBackend(c.value);
        }
      } else {
        data.SetBackend(Local(data.todoPath));
      }
    }

    /** `reload`, showing a failure as the `load_data_error` notice. */
    method ReloadOrReport(today: Date)
      modifies this`cachedItems, this`lastFingerprint, this`store, this`selected, this`toasts, data`calls
      ensures data.calls == old(data.calls) + [LoadTodos] + (if data.loaded.Ok? then [GetFingerprint] else [])
      ensures data.loaded.Ok? ==> cachedItems == data.loaded.value && toasts == old(toasts)
      ensures data.loaded.Err? ==> toasts == old(toasts) + [Alert(ReplaceAll(tr("load_data_error"), "{}", data.loaded.error))]
      ensures Reloaded(today)
    {
      var s := Reload(today);
      if s.Failure? {
        toasts := toasts + [Alert(ReplaceAll(tr("load_data_error"), "{}", s.error))];
      }
    }

    /** `set_use_webdav`: nothing happens when the value is unchanged; otherwise
        the back end is switched (to WebDAV only when a URL is set) and the
        tasks are reloaded, a failure being shown as a notice. */
    method SetUseWebdav(useWebdav: bool, today: Date)
      modifies this`preferences, this`persisted, this`cachedItems, this`lastFingerprint, this`store, this`selected, this`toasts, data`calls
      ensures old(preferences.useWebdav) == useWebdav ==>
        preferences == old(preferences) && persisted == old(persisted) && data.calls == old(data.calls) && toasts == old(toasts) &&
        ViewKept()
      ensures old(preferences.useWebdav) != useWebdav ==>
        preferences == old(preferences).(useWebdav := useWebdav) && persisted == old(persisted) + [preferences] &&
        Reloaded(today)
      ensures old(preferences.useWebdav) != useWebdav ==>
        data.calls == old(data.calls) + SwitchCalls(preferences, data.todoPath) + [LoadTodos] + (if data.loaded.Ok? then [GetFingerprint] else [])
      ensures old(preferences.useWebdav) != useWebdav ==>
        toasts == old(toasts) + (if data.loaded.Err? then [Alert(ReplaceAll(tr("load_data_error"), "{}", data.loaded.error))] else [])
    {
      if preferences.useWebdav == useWebdav {
        return;
      }
      preferences := preferences.(useWebdav := useWebdav);
      persisted := persisted + [preferences];
      assert SelectedKey() == old(SelectedKey());
      SwitchAndReload(today);
    }

    /** The second half of `set_use_webdav`: switch the back end, then reload. */
    method SwitchAndReload(today: Date)
      modifies this`cachedItems, this`lastFingerprint, this`store, this`selected, this`toasts, data`calls
      ensures Reloaded(today)
      ensures data.calls == old(data.calls) + SwitchCalls(preferences, data.todoPath) + [LoadTodos] + (if data.loaded.Ok? then [GetFingerprint] else [])
      ensures toasts == old(toasts) + (if data.loaded.Err? then [Alert(ReplaceAll(tr("load_data_error"), "{}", data.loaded.error))] else [])
    {
      SwitchBackend();
      assert ViewKept() && SelectedKey() == old(SelectedKey());
      ReloadOrReport(today);
    }

    /** `set_webdav_url`: always stored; the back end follows while WebDAV is on. */
    method SetWebdavUrl(url: string)
      modifies this`preferences, this`persisted, data`calls
      ensures preferences == old(preferences).(webdavUrl := Some(url)) && persisted == old(persisted) + [preferences]
      ensures data.calls == old(data.calls) + (if preferences.useWebdav then [SetBackendConfig(WebDavConfig(preferences).value)] else [])
    {
      preferences := preferences.(webdavUrl := Some(url));
      persisted := persisted + [preferences];
      if preferences.useWebdav {
        data.SetBackend(WebDav(url, preferences.webdavPath, preferences.webdavUsername, preferences.webdavPassword));
      }
    }

    /** `set_webdav_path`: always stored; the back end follows while WebDAV is on and a URL is set. */
    method SetWebdavPath(path: string)
      modifies this`preferences, this`persisted, data`calls
      ensures preferences == old(preferences).(webdavPath := Some(path)) && persisted == old(persisted) + [preferences]
      ensures data.calls == old(data.calls) + (if preferences.useWebdav && WebDavConfig(preferences).Some? then [SetBackendConfig(WebDavConfig(preferences).value)] else [])
    {
      preferences := preferences.(webdavPath := Some(path));
      persisted := persisted + [preferences];
      if preferences.useWebdav {
        if preferences.webdavUrl.Some? {
          data.SetBackend(WebDav(preferences.webdavUrl.value, Some(path), preferences.webdavUsername, preferences.webdavPassword));
        }
      }
    }

    /** `set_webdav_username`: always stored; the back end follows while WebDAV is on and a URL is set. */
    method SetWebdavUsername(username: string)
      modifies this`preferences, this`persisted, data`calls
      ensures preferences == old(preferences).(webdavUsername := Some(username)) && persisted == old(persisted) + [preferences]
      ensures data.calls == old(data.calls) + (if preferences.useWebdav && WebDavConfig(preferences).Some? then [SetBackendConfig(WebDavConfig(preferences).value)] else [])
    {
      preferences := preferences.(webdavUsername := Some(username));
      persisted := persisted + [preferences];
      if preferences.useWebdav {
        if preferences.webdavUrl.Some? {
          data.SetBackend(WebDav(preferences.webdavUrl.value, preferences.webdavPath, Some(username), preferences.webdavPassword));
        }
      }
    }

    /** `set_webdav_password`: always stored; the back end follows while WebDAV is on and a URL is set. */
    method SetWebdavPassword(password: string)
      modifies this`preferences, this`persisted, data`calls
      ensures preferences == old(preferences).(webdavPassword := Some(password)) && persisted == old(persisted) + [preferences]
      ensures data.calls == old(data.calls) + (if preferences.useWebdav && WebDavConfig(preferences).Some? then [SetBackendConfig(WebDavConfig(preferences).value)] else [])
    {
      preferences := preferences.(webdavPassword := Some(password));
      persisted := persisted + [preferences];
      if preferences.useWebdav {
        if preferences.webdavUrl.Some? {
          data.SetBackend(WebDav(preferences.webdavUrl.value, preferences.webdavPath, preferences.webdavUsername, Some(password)));
        }
      }
    }

    /** The file monitor's handler: reload on content, move and attribute
        events; announce content changes; show a failed reload. */
    method OnMonitorEvent(e: MonitorEvent, today: Date)
      modifies this`cachedItems, this`lastFingerprint, this`store, this`selected, this`toasts, data`calls
      ensures !ShouldReload(e) ==> data.calls == old(data.calls) && toasts == old(toasts) && ViewKept()
      ensures ShouldReload(e) ==>
        data.calls == old(data.calls) + [LoadTodos] + (if data.loaded.Ok? then [GetFingerprint] else []) && Reloaded(today)
      ensures ShouldReload(e) && data.loaded.Ok? ==>
        cachedItems == data.loaded.value &&
        toasts == old(toasts) + (if AnnouncesChange(e) then [Info(tr("changes_applied"))] else [])
      ensures ShouldReload(e) && data.loaded.Err? ==>
        toasts == old(toasts) + [Alert(ReplaceAll(tr("update_failed"), "{}", data.loaded.error))]
    {
      if !ShouldReload(e) {
        return;
      }
      var s := Reload(today);
      if s.Success? {
        if AnnouncesChange(e) {
          toasts := toasts + [Info(tr("changes_applied"))];
        }
      } else {
        toasts := toasts + [Alert(ReplaceAll(tr("update_failed"), "{}", s.error))];
      }
    }

    /** The voice button: while recording it only clears the flag; without the
        model file it shows an error and stays off; otherwise recording starts. */
    method ToggleRecording()
      modifies this`isRecording, this`toasts
      ensures old(isRecording) ==> !isRecording && toasts == old(toasts)
      ensures !old(isRecording) && !modelPresent ==> !isRecording && toasts == old(toasts) + [Alert(tr("model_not_found"))]
      ensures !old(isRecording) && modelPresent ==> isRecording && toasts == old(toasts)
    {
      if isRecording {
        isRecording := false;
        return;
      }
      if !modelPresent {
        toasts := toasts + [Alert(tr("model_not_found"))];
        return;
      }
      isRecording := true;
    }

    /** One tick of the voice timer: apply every queued message in order and
        report whether the timer stops. */
    method DrainTick(queue: seq<VoiceMsg>) returns (finished: bool)
      modifies this`entryText, this`isRecording, this`toasts
      ensures VoiceUi(entryText, isRecording, toasts) == ApplyAll(old(VoiceUi(entryText, isRecording, toasts)), queue)
      ensures finished == EndsDrain(queue)
    {
      finished := false;
      var i := 0;
      while i < |queue|
        invariant 0 <= i <= |queue|
        invariant VoiceUi(entryText, isRecording, toasts) == ApplyAll(old(VoiceUi(entryText, isRecording, toasts)), queue[..i])
        invariant finished == EndsDrain(queue[..i])
      {
        var m := queue[i];
        ApplyAllAppend(old(VoiceUi(entryText, isRecording, toasts)), queue[..i], [m]);
        assert queue[..i + 1] == queue[..i] + [m];
        assert ApplyAll(VoiceUi(entryText, isRecording, toasts), [m]) == Apply(VoiceUi(entryText, isRecording, toasts), m);
        match m {
          case Error(e) =>
            toasts := toasts + [Alert(e)];
            isRecording := false;
            finished := true;
          case Transcription(text) =>
            if entryText == "" {
              entryText := text;
            } else {
              entryText := entryText + " " + text;
            }
          case Transcribing =>
          case Finished =>
            isRecording := false;
            finished := true;
        }
        assert IsTerminal(m) ==> queue[..i + 1][i] == m;
        i := i + 1;
      }
      assert queue[..|queue|] == queue;
    }
  }
}
