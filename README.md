# ReinschriftTodo task-list logic in Dafny

ReinschriftTodo keeps an Obsidian-style Markdown task file. Each task line is
`- [ ] title +project @context due:YYYY-MM-DD [[reference]] ✅ YYYY-MM-DD ^id`,
and `### Heading` lines open sections. There are two front ends: a GTK desktop
window (`src/ui.rs`) and a Flask web page (`webapp/app.py`). This project models
the logic the two share with the task file, and proves what it promises:

- **The desktop view** (`View`, `Compare`, `Sorting`, `SortModes`).
  - The sort-mode codecs.
  - The comparator family, and that each comparator is a total preorder.
  - `group_label` and `format_metadata`.
  - `repopulate_store` as one function from the cached tasks, the mode, the
    search term, the two switches, the day and the previously selected key to
    the rows and the row to select.
  - Without a search term: the visible tasks, sorted, with a header at every
    label change and nowhere else.
  - With a search term: the three buckets, de-duplicated by task key.
  - Selection is restored by key.
- **The desktop window's state** (`App`): a class `AppState` whose methods
  change its fields.
  - `reload`, `check_for_updates`, and the poll back-off of `schedule_poll`.
  - `toggle_item` with the next occurrence of a recurring task.
  - The preference setters, which do nothing when the value is unchanged.
  - The file-monitor rule.
  - The voice toggle, and the timer that drains the voice messages.
  - The unseen `data` module is a collaborator object, `DataBackend`. Its
    answers are fixed values, and it logs every call it receives.
  - The voice worker's messages are a function of what its library calls
    returned (`Voice`).
- **The web front end's line format** (`LineFormat`).
  - The token regular expressions, as scanners for their leftmost match.
  - `parse_line`, `extract_title` and `capture_token`.
  - `rewrite_line`, with its ` ✅ YYYY-MM-DD` completion marker.
- **The web front end's edits and pages** (`WebLines`, `WebLoad`, `WebIndex`).
  - The file is a class `TodoFile` holding the list of its lines. `add_todo`,
    `toggle_todo` and the `toggle`, `postpone`, `edit` and `add` routes
    replace or insert in that list.
  - `load_todos` with its section tracking.
  - The sort keys, the filter, the search buckets, the display sections and
    the saved view settings of `index`.
- **Translation lookup** (`I18n`).
  - The language code of a locale.
  - The ordered search over the candidate languages, with its fallbacks to
    German and then to the key.
  - The `set_language` override, kept in a `Localizer` object.

The wall clock is the parameter `today`. The translation tables, the system's
language list and the translator `tr` are parameters too.

## Model

| member | source | states |
|---|---|---|
| SortModes.FromIndex | src/ui.rs:52-58 | index 1 gives Location, 2 gives Date, every other index Topic (all three as iff) |
| SortModes.ToIndex | src/ui.rs:60-66 | decoding the index gives the mode back, and the index is at most 2 |
| SortModes.FromKey | src/ui.rs:68-74 | "location" gives Location, "date" gives Date, every other key Topic (iff) |
| SortModes.AsKey | src/ui.rs:76-82 | decoding the key gives the mode back, and the key is one of the three canonical keys |
| SortModes.CanonicalRoundTrips | src/ui.rs:52-82 | encoding a decoded canonical index or key gives it back |
| Orderings.CmpStrFlip | src/ui.rs:2532-2534 | string order is antisymmetric: swapping the arguments flips the result |
| Orderings.CmpStrEqual | src/ui.rs:2532-2534 | string order answers Equal exactly for equal strings |
| Orderings.CmpStrTrans | src/ui.rs:2532-2534 | string order is transitive |
| Orderings.CmpStrTotalPreorder | src/ui.rs:2532-2534 | string order is a total preorder |
| Compare.LexicalOrderEqual | src/ui.rs:2532-2534 | `lexical_order` answers Equal exactly when the ASCII-lowercased strings are equal |
| Compare.CompareOptionStr | src/ui.rs:2514-2521 | a present text sorts before an absent one; two present texts compare by `lexical_order` |
| Compare.CompareOptionDate | src/ui.rs:2523-2530 | an absent date sorts before a present one; two dates compare chronologically |
| Compare.OptKeyOrder | src/ui.rs:2514-2521 | `compare_option_str` is the order of a two-part key (presence, then lowercased text) |
| Compare.CompareByProjectIsKeyOrder | src/ui.rs:2495-2500 | `compare_by_project` is the lexicographic order of (project, section, title, context) keys |
| Compare.CompareByContextIsKeyOrder | src/ui.rs:2502-2507 | `compare_by_context` is the order of (context, section, title, project) keys |
| Compare.CompareByDueIsKeyOrder | src/ui.rs:2509-2512 | `compare_by_due` is the order of (due, then the project key) keys |
| Compare.CompareInIsKeyOrder | src/ui.rs:2359-2365 | the comparator `sort_items` picks for a mode is the key order of that mode |
| Compare.CompareInFacts | src/ui.rs:2359-2365 | each mode's comparator is antisymmetric and transitive at every triple of tasks |
| Compare.CompareByProjectTotalPreorder | src/ui.rs:2495-2500 | `compare_by_project` is a total preorder |
| Compare.CompareByContextTotalPreorder | src/ui.rs:2502-2507 | `compare_by_context` is a total preorder |
| Compare.CompareByDueTotalPreorder | src/ui.rs:2509-2512 | `compare_by_due` is a total preorder |
| Compare.ComparatorForTotalPreorder | src/ui.rs:2359-2365 | every mode sorts with a total preorder, so `sort_by` is well defined |
| Dates.CmpDateFacts | src/ui.rs:2523-2530 | chronological order is antisymmetric, Equal only on equal dates, and transitive |
| Dates.CmpDateTotalPreorder | src/ui.rs:2523-2530 | chronological order is a total preorder |
| Dates.NextDay | webapp/app.py:447 | the next day is valid, after the date, and no valid date lies between; no next day (Python's OverflowError) exactly for 9999-12-31 |
| Dates.Format | webapp/app.py:204 | `strftime("%Y-%m-%d")` yields a `\d{4}-\d{2}-\d{2}` string |
| Dates.Parse | webapp/app.py:150 | whatever `strptime` accepts is a valid calendar date |
| Dates.FormatParse | webapp/app.py:150 | parsing a formatted valid date gives the date back |
| Dates.ParseFormat | webapp/app.py:150 | every string that parses is the formatting of its date |
| Sorting.SortBy | src/ui.rs:2359-2365 | the sort is a permutation of its input |
| Sorting.SortBySorted | src/ui.rs:2359-2365 | with a total-preorder comparator the result is sorted |
| Sorting.InsertStable | src/ui.rs:2359-2365 | inserting into a sorted list puts the new element after every element equal to it |
| Sorting.SortByStable | src/ui.rs:2359-2365 | the sort is stable: the elements the comparator calls equal to any `x` come out in their input order |
| Sorting.SortBySortedIdentity | src/ui.rs:2359-2365 | an already sorted list comes out as it is, order of equals included |
| Sorting.SortByIdempotent | src/ui.rs:2359-2365 | sorting twice is sorting once |
| Sorting.SortByKeepsKeysDistinct | src/ui.rs:1771-1772 | sorting keeps the task keys distinct |
| Text.Lower | src/ui.rs:2533 | lowercasing maps every character and keeps the length |
| Text.LStrip | webapp/app.py:127 | `lstrip()` drops exactly the leading whitespace: a suffix, everything dropped is whitespace, the rest starts with a non-space |
| Text.RStrip | webapp/app.py:211 | `rstrip()` drops exactly the trailing whitespace |
| Text.Strip | webapp/app.py:115 | `strip()` leaves a text that neither starts nor ends with whitespace |
| Text.StripAt | webapp/app.py:115 | the stripped text is the slice of the input after the leading whitespace, with only whitespace after it |
| Text.StripTrims | webapp/app.py:115 | `strip()` is the slice of the input with only whitespace around it that neither starts nor ends with whitespace, and the only such slice |
| Text.TrimOfUnique | webapp/app.py:115 | two such slices of one text are equal |
| Text.FindFrom | webapp/app.py:180 | `find` answers the first occurrence at or after the start, or that there is none |
| Text.ReplaceFirst | webapp/app.py:202 | `replace(pat, rep, 1)` replaces the first occurrence and only that one |
| Text.ReplaceAll | src/ui.rs:2369-2371 | `replace` of a pattern that does not occur leaves the text as it is |
| Text.ReplaceAllFirst | src/ui.rs:2369-2371 | `replace` keeps the text before the first occurrence and puts the replacement in its place; with one occurrence the result is prefix, replacement, rest |
| Text.PrefixBefore | src/i18n.rs:54 | `split(c).next()` is the longest prefix without `c`, ending at the first `c` |
| Text.LStripChar | webapp/app.py:117 | `lstrip(c)` drops exactly the leading `c`s |
| Seqs.Filter | src/ui.rs:1781-1790 | a filter keeps only elements that pass and every element that passes |
| Seqs.FirstWhere | webapp/app.py:224-228 | the first position whose element passes, or the length; no earlier element passes |
| Seqs.FindFirst | webapp/app.py:224-228 | the search loop finds `FirstWhere` |
| Seqs.FirstWhereUnique | webapp/app.py:224-228 | only the first passing position (or the length) has the `FirstWhere` properties |
| View.NameOr | src/ui.rs:2371-2375 | the name shown is the project or context when non-empty, else the placeholder |
| View.GroupLabel | src/ui.rs:2366-2384 | there is no group label exactly in date mode |
| View.GroupLabelText | src/ui.rs:2368-2381 | outside date mode the label is the mode's template (`topic_group`, `location_group`) with the project or context name (or its placeholder) at the first `{}`; with one `{}` the rest of the template is kept around it; without `{}` the template itself |
| View.GroupLabelByName | src/ui.rs:2367-2385 | a task's label depends only on the name its mode groups by |
| View.GroupLabelWithoutPlaceholder | src/ui.rs:2367-2385 | a template without `{}` is shown as it is |
| View.MetadataShowsFields | src/ui.rs:2436-2468 | the detail line shows the section, `+project`, `@context`, the date ("sometimes" in year 9999), `↻ rule` and `↗ reference` when present, and is empty for a task with none |
| View.RowsForFacts | src/ui.rs:1791-1799 | one task's rows hold the task, start with a header only at a label change, and leave its label as the last header |
| View.GroupedItems | src/ui.rs:1780-1800 | grouping only adds headers: the tasks come out as they went in |
| View.GroupedHeaders | src/ui.rs:1791-1799 | a header appears right before a task exactly when its label differs from the last header |
| View.GroupedDateModeNoHeaders | src/ui.rs:1791-1799 | date mode emits no header |
| View.FilterKeepsSorted | src/ui.rs:1781-1790 | filtering a sorted list keeps it sorted |
| View.SelectIndex | src/ui.rs:1853-1875 | the selected row is the first row holding the task with the previous key, or none has it |
| View.NonSearchList | src/ui.rs:1770-1800 | without a search term the rows hold exactly the sorted tasks that pass the done and due-only switches, with headers at label changes only, none in date mode |
| View.NonSearchListSorted | src/ui.rs:1771-1800 | without a search term the listed tasks are in the order of the mode's comparator |
| View.BucketContents | src/ui.rs:1801-1851 | bucket 1 holds the visible matching tasks; bucket 2 the open and bucket 3 the done matching tasks whose key bucket 1 lacks (each as iff) |
| View.SearchEntriesShape | src/ui.rs:1801-1851 | the search rows are the three buckets in order, each under one header exactly when it is non-empty |
| View.BucketsKeysDistinct | src/ui.rs:1801-1851 | each bucket keeps the keys distinct |
| View.SearchEntriesNoDuplicates | src/ui.rs:1801-1851 | with distinct keys in, no task is listed twice in the search rows |
| View.SearchList | src/ui.rs:1801-1851 | with a search term every listed task is a cached task whose lowercased title contains the term, and none is listed twice |
| View.SelectionStable | src/ui.rs:1853-1875 | rebuilding with the key of the selected row selects the same row again |
| View.SelectionRestored | src/ui.rs:1853-1875 | the previously selected task is selected again whenever it is still listed |
| App.MonitorRules | src/ui.rs:2405-2429 | announced events all reload; mounts and moves in or out of the directory do neither |
| App.NextInterval | src/ui.rs:114-126 | after a success the wait is 10 s, after a failure `min(2i, 300)` |
| App.IntervalBounded | src/ui.rs:114-126 | from a wait between 10 and 300 s, any run of checks keeps it between 10 and 300 s |
| App.FailuresFrom | src/ui.rs:114-126 | consecutive failures double the wait until it reaches the 300 s cap |
| App.IntervalAfterFailures | src/ui.rs:114-126 | after k failures from the start the wait is `min(10·2^k, 300)` |
| App.ToggleWrite | src/ui.rs:922-935 | a recurring task completed after its due date is written as done today; any other toggle is a plain toggle of its key |
| App.NextOccurrence | src/ui.rs:937-945 | the next occurrence is an open copy with key (0, none) due on the next date, all other fields kept |
| App.ToggleNotice | src/ui.rs:951-955 | the notice is "Erledigt: title" or "Reaktiviert: title" |
| App.AppendSection | src/ui.rs:1811-1816 | a bucket is appended under its header, and nothing is appended for an empty bucket |
| App.AppendGrouped | src/ui.rs:1780-1800 | the grouping loop appends the grouped rows of the visible tasks |
| App.FillRows | src/ui.rs:1770-1851 | the rows appended are the list `BuildEntries` specifies |
| App.FindRow | src/ui.rs:1853-1875 | the selection loop finds `SelectIndex` |
| App.DataBackend.RecurrenceAdds | src/ui.rs:936-947 | a completed recurring task whose next due date exists adds exactly its next occurrence; otherwise nothing |
| App.WebDavConfig | src/ui.rs:1619-1630 | a WebDAV configuration exists exactly when a URL is set, and carries the stored path and credentials |
| App.SwitchCalls | src/ui.rs:1619-1636 | WebDAV on with a URL selects WebDAV, on without a URL selects nothing, off selects the local file |
| App.AppState.constructor | src/ui.rs:811-819 | the sort mode comes from the stored key (Topic when none), and its canonical key is written back |
| App.AppState.RepopulateStore | src/ui.rs:1744-1891 | the rows and the selection become the view built from the state and the previously selected key |
| App.AppState.Reload | src/ui.rs:902-910 | `Reloaded`: a failed load leaves tasks, fingerprint, rows and selection as they were; a successful one stores the loaded tasks and the fingerprint when it can be read, and the rows and selection become the view rebuilt around the previously selected task; the calls are `load_todos`, then `get_fingerprint` on success |
| App.AppState.CheckForUpdates | src/ui.rs:912-920 | an unreadable fingerprint fails and an unchanged one succeeds, both leaving tasks, fingerprint, rows and selection as they were; a changed one ends in `Reloaded` |
| App.AppState.PollTick | src/ui.rs:114-126 | the next wait is `NextInterval` of the check's outcome, which succeeds exactly when the fingerprint is readable and unchanged or the reload succeeds; the state is `Reloaded` after a changed fingerprint and unchanged otherwise |
| App.AppState.AddRecurrence | src/ui.rs:936-947 | the calls made are exactly `RecurrenceAdds`: the next occurrence of a completed recurring task whose next due date exists |
| App.AppState.ToggleItem | src/ui.rs:922-958 | the exact calls made (write, next occurrence, reload); a failing write stops there with the state unchanged; a failing add is ignored; after the write the state is `Reloaded`; the notice is shown after a successful reload |
| App.AppState.SetShowCompleted | src/ui.rs:1417-1428 | an unchanged value does nothing; a change is stored, persisted and the rows rebuilt |
| App.AppState.SetShowDueOnly | src/ui.rs:1430-1441 | an unchanged value does nothing; a change is stored, persisted and the rows rebuilt |
| App.AppState.SetSortMode | src/ui.rs:1725-1742 | an unchanged mode does nothing; a change stores the mode and its key, persists and rebuilds |
| App.AppState.SetWhisperLanguage | src/ui.rs:1600-1609 | an unchanged language does nothing; a change is stored and persisted |
| App.AppState.SetUseWhisper | src/ui.rs:1443-1465 | an unchanged value does nothing; a change is persisted, and turning voice input off deletes the model |
| App.AppState.SwitchBackend | src/ui.rs:1619-1636 | the back end receives the configuration `SwitchCalls` selects |
| App.AppState.ReloadOrReport | src/ui.rs:1637-1639 | the state is `Reloaded` with the calls of a reload, and a failure is shown as the `load_data_error` notice |
| App.AppState.SetUseWebdav | src/ui.rs:1611-1639 | an unchanged value changes nothing; a change is stored and persisted, the calls are the back-end switch then a reload, the state is `Reloaded`, and a failure is shown as the `load_data_error` notice |
| App.AppState.SwitchAndReload | src/ui.rs:1620-1639 | the calls are `SwitchCalls` then a reload's, the state is `Reloaded`, and a failed load adds the `load_data_error` notice |
| App.AppState.SetWebdavUrl | src/ui.rs:1641-1657 | the URL is always stored and persisted; the back end follows while WebDAV is on |
| App.AppState.SetWebdavPath | src/ui.rs:1659-1677 | the path is always stored; the back end follows while WebDAV is on and a URL is set |
| App.AppState.SetWebdavUsername | src/ui.rs:1679-1697 | the user name is always stored; the back end follows while WebDAV is on and a URL is set |
| App.AppState.SetWebdavPassword | src/ui.rs:1699-1717 | the password is always stored; the back end follows while WebDAV is on and a URL is set |
| App.AppState.OnMonitorEvent | src/ui.rs:2403-2429 | other events change nothing; reload events make the calls of a reload and leave the state `Reloaded`, announce content changes on success and show a failure as the `update_failed` notice |
| App.AppState.ToggleRecording | src/ui.rs:1907-1923 | while recording it only clears the flag; without the model it shows `model_not_found` and stays off; otherwise recording starts |
| App.AppState.DrainTick | src/ui.rs:1933-1972 | the tick applies every queued message in order and stops exactly when one was `Error` or `Finished` |
| Voice.RecognisedText | src/ui.rs:2088-2095 | the transcription neither starts nor ends with whitespace |
| Voice.RecognisedTextTrims | src/ui.rs:2088-2095 | the transcription is the readable segment texts concatenated with exactly the surrounding whitespace trimmed |
| Voice.RecogniserMessagesShape | src/ui.rs:2060-2099 | the recogniser sends one terminal message last unless it panics, and before it at most one transcription, never empty |
| Voice.WorkerMessagesShape | src/ui.rs:1977-2100 | unless it panics the worker sends exactly one `Error` or `Finished`, last; an empty recording gives `[Finished]` alone |
| Voice.ApplyAllAppend | src/ui.rs:1935-1966 | draining two runs of messages is draining them one after the other |
| Voice.EntryAfter | src/ui.rs:1945-1952 | each transcription is put in an empty field as it is, else joined with one space; nothing else touches the field |
| Voice.TicksApplyAll | src/ui.rs:1933-1972 | however the messages are split into ticks, they are applied once each, in order |
| Voice.SessionResult | src/ui.rs:1933-2100 | after a session the flag is off; recognised text ends in the field; an empty recording changes nothing else; an error is shown and the field stays empty |
| Voice.DrainResult | src/ui.rs:1933-1972 | the same outcome for the worker's messages drained together |
| Voice.DrainSegments | src/ui.rs:1945-1964 | a recording the recogniser read ends with its text in the field and the flag off |
| Voice.DrainError | src/ui.rs:1937-1944 | a failed session ends with the error shown, the flag off and the field empty |
| I18n.LangCode | src/i18n.rs:54 | the code is the longest prefix without `_` or `.`, ending at the first of them |
| I18n.LangCodeExamples | src/i18n.rs:54 | `de_DE.UTF-8` gives `de`, `en.UTF-8` gives `en`, `C` gives `C` |
| I18n.LangCodeBeforeSeparator | src/i18n.rs:54 | a code followed by `_` or `.` and anything is read back as the code |
| I18n.LangCodeOfCode | src/i18n.rs:54 | a code without `_` or `.` is its own language code |
| I18n.FirstHit | src/i18n.rs:52-60 | the first candidate whose table holds the key, or none does |
| I18n.T | src/i18n.rs:47-63 | the first candidate holding the key answers; with none, the German text, else the key |
| I18n.Candidates | src/i18n.rs:47-51 | the override alone when set, else the system's languages |
| I18n.TAnswers | src/i18n.rs:52-63 | `t` answers some table's text for the key, or the key itself |
| I18n.OverrideWins | src/i18n.rs:47-60 | with an override whose table holds the key, that text is the answer, whatever the system languages |
| I18n.Localizer.SetLanguage | src/i18n.rs:7-12 | after `set_language(l)` the candidates are exactly `[l]` |
| I18n.Localizer.Translate | src/i18n.rs:14-64 | a read-only query: the override's text, else the German text or the key; without override `T` of the system's languages |
| LineFormat.TokenAt | webapp/app.py:44-47 | a `<lead>(<class>+)` group matches exactly where the lead is followed by one class character, and spans the longest run |
| LineFormat.GroupAt | webapp/app.py:43-47 | a group found at a position is a non-empty span after it |
| LineFormat.SearchFrom | webapp/app.py:171 | `regex.search` finds the leftmost match position, or that there is none |
| LineFormat.CaptureToken | webapp/app.py:170-174 | none exactly when nothing matches; otherwise the stripped group of the leftmost match |
| LineFormat.FindCompletion | webapp/app.py:476 | `COMPLETION_RE.search` finds the first completion marker, or that there is none |
| LineFormat.RemoveCompletions | webapp/app.py:199 | `COMPLETION_RE.sub("", line)` never lengthens the line |
| LineFormat.DoneMarker | webapp/app.py:204-205 | today's marker is 13 characters and one completion marker |
| LineFormat.CompletionsDisjoint | webapp/app.py:48 | two completion markers never overlap |
| LineFormat.RemoveCompletionsClearsChecks | webapp/app.py:199 | on a line whose every `✅` belongs to a marker, `sub` removes every `✅` |
| LineFormat.RemoveCompletionsIdentity | webapp/app.py:199 | a line without markers is left as it is |
| LineFormat.RemoveCompletionsPrefix | webapp/app.py:199 | before the first marker `sub` copies the line |
| LineFormat.EarliestCut | webapp/app.py:177-183 | the cut is no later than any marker occurrence and is one of them, or the length |
| LineFormat.FirstCut | webapp/app.py:178-183 | the marker loop settles on `EarliestCut` |
| LineFormat.EarliestCutSnoc | webapp/app.py:179-182 | one more marker lowers the cut to its first occurrence when that is earlier |
| LineFormat.ExtractTitle | webapp/app.py:176-186 | the method computes the title of `extract_title` |
| LineFormat.TitleAvoids | webapp/app.py:184-186 | a title cut before the markers holds no occurrence of any of them |
| LineFormat.TitleHasNoMarkers | webapp/app.py:176-186 | a non-empty cut title holds none of `+`, `@`, `due:`, `[[`, `✅`, `^` |
| LineFormat.TitleFallback | webapp/app.py:186 | when nothing precedes the first marker the title is the whole stripped rest |
| LineFormat.DueOf | webapp/app.py:146-152 | a due date is only ever the parse of the captured text |
| LineFormat.ParseLine | webapp/app.py:126-168 | none exactly when the left-stripped line starts with no checkbox; done exactly for `- [x]`/`- [X]`; index, section and raw line as given; the title of `extract_title` |
| LineFormat.Tick | webapp/app.py:202-203 | ticking adds no `✅` |
| LineFormat.Untick | webapp/app.py:215-216 | unticking adds no `✅` |
| LineFormat.RewriteMarksBeforeId | webapp/app.py:199-213 | ticking puts today's marker right after the right-stripped text before the first `^id`, then one space, so the first `^id` of the result follows the marker; with no `^id` the line ends with the marker |
| LineFormat.RewriteDoneMarker | webapp/app.py:196-213 | ticking leaves exactly one completion marker, today's, and the line keeps that form |
| LineFormat.RewriteOpenNoMarker | webapp/app.py:199-216 | unticking a line whose every `✅` belongs to a completion marker removes every completion marker |
| LineFormat.BoxParse | webapp/app.py:127-139 | a line of whitespace and a checkbox parses, done unless the box is `- [ ]` |
| LineFormat.ParsedHasBox | webapp/app.py:127-139 | every task line has that shape |
| LineFormat.RemoveCompletionsBox | webapp/app.py:199 | removing markers keeps the checkbox in place |
| LineFormat.ReplaceFirstBox | webapp/app.py:202-203 | replacing the first box-shaped text changes the checkbox only when it is the checkbox |
| LineFormat.PlaceMarkerBox | webapp/app.py:208-213 | placing the marker keeps the checkbox |
| LineFormat.IdAfterBox | webapp/app.py:208-211 | an `^id` starts after the checkbox |
| LineFormat.TickBox | webapp/app.py:202-203 | ticking leaves a ticked checkbox in place |
| LineFormat.UntickBox | webapp/app.py:215-216 | unticking leaves an open checkbox in place |
| LineFormat.RewriteDoneFlag | webapp/app.py:196-218 | a rewritten task line parses, and its done flag is the requested one |
| WebLines.RenderBox | webapp/app.py:538-539 | a rebuilt line starts with its checkbox |
| WebLines.RenderParses | webapp/app.py:459-481 | a rebuilt line is a task line, done exactly when its parts say so |
| WebLines.NonBlank | webapp/app.py:462-472 | `x and x.strip()` keeps exactly the present non-blank pieces, stripped |
| WebLines.Truthy | webapp/app.py:480-481 | `if marker:` keeps exactly the present non-empty marker |
| WebLines.CleanTag | webapp/app.py:541-549 | none exactly when the piece is absent or only `+`s (`@`s); otherwise the stripped piece less its leading `+`s (`@`s), non-empty |
| WebLines.LStripCharEmpty | webapp/app.py:542-543 | stripping the leading `c`s leaves nothing exactly when the text is all `c`s |
| WebLines.CompletionText | webapp/app.py:476-478 | the text of the first completion marker of the line, or empty when there is none |
| WebLines.PostponeDate | webapp/app.py:444-449 | the new due date is a valid date |
| WebLines.PostponeDateFacts | webapp/app.py:444-449 | tomorrow (the day after, failing only on 9999-12-31), 9999-12-31 for "sometimes", else today; never before today |
| WebLines.Postponed | webapp/app.py:427-486 | exactly task lines are rewritten (unless the date overflows), and they keep their done flag |
| WebLines.EditTitle | webapp/app.py:519-520 | `title (comment)` when the comment is not blank, else the stripped title |
| WebLines.EditCompletion | webapp/app.py:526-536 | none for an open task; for a done one the line's first marker if it was ticked and has one, else today's |
| WebLines.Edited | webapp/app.py:499-566 | an edit with a title writes a task line done exactly as the form says |
| WebLines.ToggleAsWrittenMisses | webapp/app.py:417-423 | an open task whose text holds `- [x]` stays open under the route as written |
| WebLines.OpenTaskHoldingDoneBox | webapp/app.py:422 | such lines exist |
| WebLines.ToggleFlips | webapp/app.py:417-423 | the corrected route flips a task line's done flag |
| WebLines.InsertIndex | webapp/app.py:224-228 | the insertion point is the first `---` line, or the end |
| WebLines.InsertAt | webapp/app.py:232 | `lines.insert(k, x)` puts `x` at `k` and shifts the lines after it |
| WebLines.InsertRemove | webapp/app.py:232 | taking the new line out gives the old lines back, so all other lines keep their order |
| WebLines.AddedLine | webapp/app.py:220-234 | the new line is an open task, right before the first separator, after lines that are none |
| WebLines.NewTaskLineOpen | webapp/app.py:230-231 | the line `add_todo` writes reads back as an open task |
| WebLines.TodoFile.AddTodo | webapp/app.py:220-234 | the new line is inserted at `InsertIndex` |
| WebLines.TodoFile.Add | webapp/app.py:600-609 | a missing or empty title adds nothing |
| WebLines.TodoFile.ToggleTodo | webapp/app.py:188-194 | only the line at the index is rewritten; an index past the end changes nothing |
| WebLines.TodoFile.Toggle | webapp/app.py:406-425 | the route as written: only the line at the index is rewritten, towards open when it holds `- [x]`/`- [X]` anywhere, else towards done; an open task holding such text stays open |
| WebLines.TodoFile.ToggleFlipped | webapp/app.py:406-425 | the corrected route: only the line at the index is rewritten, and a task line's done flag flips |
| WebLines.TodoFile.Postpone | webapp/app.py:427-486 | only the line at the index is replaced by its postponed form; otherwise nothing changes |
| WebLines.TodoFile.Edit | webapp/app.py:499-566 | only the line at the index is replaced by its edited form; otherwise nothing changes |
| WebLoad.HeadingOf | webapp/app.py:115-118 | a line opens a section exactly when its stripped text starts with `###` |
| WebLoad.WebReaderReads | webapp/app.py:114-122 | the generic reader `load_todos` uses is the heading test and `parse_line` |
| WebLoad.ReadLines | webapp/app.py:114-124 | the loop with `current_section` computes `LoadedUpTo` |
| WebLoad.LoadTodos | webapp/app.py:105-124 | `load_todos` computes `Loaded` |
| WebLoad.BoxNotHeading | webapp/app.py:116 | a line starting with a checkbox is no heading |
| WebLoad.TaskNotHeading | webapp/app.py:114-122 | a task line is never a heading, so skipping headings loses no task |
| WebLoad.LoadedFacts | webapp/app.py:114-124 | each loaded task is the line it names under the section in force there, in line order |
| WebLoad.LoadedComplete | webapp/app.py:114-124 | every line the parser accepts, headings aside, is loaded |
| WebLoad.LoadedTasks | webapp/app.py:105-124 | `load_todos` reads every task line, under its section, in line order |
| WebLoad.SectionAfter | webapp/app.py:114-118 | the section in force is the one the nearest heading above opens |
| WebLoad.SectionAfterHeading | webapp/app.py:116-117 | the section of a line is the text of the nearest `###` heading above it |
| WebIndex.WebCmp | webapp/app.py:357-363 | `sort(key=...)` compares the mode's keys |
| WebIndex.WebCmpTotalPreorder | webapp/app.py:236-269 | every mode's key order is a total preorder |
| WebIndex.WebKeysMatchDesktop | webapp/app.py:236-269 | for non-empty project and context the web sort order is the desktop comparator's |
| WebIndex.KeyMatchesDesktop | webapp/app.py:236-269 | one task's web key is its desktop key |
| WebIndex.UndatedFirst | webapp/app.py:260-269 | in date mode undated tasks sort before dated ones |
| WebIndex.FilterTodos | webapp/app.py:320-330 | the filter loop computes the filter by the two switches |
| WebIndex.FilterFacts | webapp/app.py:322-330 | the listed tasks are exactly those passing both switches |
| WebIndex.HideSections | webapp/app.py:335-346 | the copies have their section set to none |
| WebIndex.HiddenMember | webapp/app.py:335-346 | a task is in the hidden copies exactly when it is the copy of one |
| WebIndex.CurrentContents | webapp/app.py:335-336 | bucket 1 holds only listed matching tasks, sections hidden |
| WebIndex.OtherContents | webapp/app.py:338-346 | buckets 2 and 3 hold only matching tasks with the bucket's done flag, none whose key bucket 1 holds |
| WebIndex.BucketsDisjoint | webapp/app.py:335-346 | no task is in bucket 1 and another bucket, or in both other buckets |
| WebIndex.SearchComplete | webapp/app.py:332-346 | every matching task is found: a listed one in bucket 1, any other in its done flag's bucket |
| WebIndex.LoadedLinesDistinct | webapp/app.py:105-124 | loaded tasks come from distinct lines |
| WebIndex.KeySplit | webapp/app.py:236-258 | a key is its group part followed by the rest |
| WebIndex.GroupsContiguous | webapp/app.py:357-385 | after sorting, tasks of one group are contiguous, so each heading shows once |
| WebIndex.SortedTodos | webapp/app.py:357-363 | the sorted tasks are a sorted permutation of the filtered ones, and tasks with equal keys keep their filtered order |
| WebIndex.TextOr | webapp/app.py:373-375 | the project or context when non-empty, else the placeholder |
| WebIndex.DisplayTodos | webapp/app.py:369-385 | the display loop computes `Displayed` |
| WebIndex.SameGroupSameHeading | webapp/app.py:369-383 | in topic and location mode, tasks of one group get one heading |
| WebIndex.Effective | webapp/app.py:285-308 | a query parameter if given, else the saved value, else the default |
| WebIndex.SettingsPersist | webapp/app.py:285-311 | a visit's settings are what the next visit without parameters reads; other saved entries are kept; no parameters saves nothing new |
| WebIndex.Setting | webapp/app.py:292-308 | one setting's effective value, the updated settings, and whether it was given |
| WebIndex.Index | webapp/app.py:271-390 | the view, the page, and the settings saved exactly when a setting was given |
| WebIndex.RenderPage | webapp/app.py:313-390 | the page: search buckets with a query, else the sorted and grouped list |
| WebIndex.ListPageFacts | webapp/app.py:357-390 | the list page shows the filtered tasks, sorted by the mode's key, each under its display section |

## Left out

- Reading and writing the task file, including WebDAV through `requests`, and the settings JSON. A file is the list of its lines; `splitlines` and `'\n'.join(lines) + '\n'` are not modelled.
- Flask routing, sessions, login and logout, `set_language`, `get_locale`, `get_todo_json`, the `partial` switch and template rendering. `index` returns the page data instead.
- The GTK plumbing: `build_ui`, `create_list_view`, dialogs, CSS classes, toasts beyond their text, and the scroll position restore, which uses floating point.
- The voice worker's audio capture, downmix, resampling and whisper calls. Only the messages they lead to are modelled, and the threads and channel are not.
- `ensure_whisper_model` (the model download) is not modelled: `SetUseWhisper` stops when voice input is turned on.
- `set_due_today`, `set_due_in_days`, `set_due_sometimes` and `save_item` only hand a task to the unseen `data` module. They are not modelled.
- The `data` module (`load_todos`, `get_fingerprint`, `next_due_date`, `update_todo_details`, `toggle_todo`, `add_todo_full`, `set_backend_config`) is not part of this model. `DataBackend` answers with fixed values and logs each call.
- App.AppState.constructor: the start-up choice of the task file (command line versus saved path), the first back-end configuration and deleting the model when voice input is off are not modelled.
- Whitespace is the ASCII whitespace set (space, tab, line feed, vertical tab, form feed, carriage return), and lowercasing (`to_lowercase`, `to_ascii_lowercase`, `lower`) is ASCII lowercasing. Unicode case mapping and Unicode whitespace are not modelled. Python's `str.strip` and the regular-expression `\s` also treat `\x1c`–`\x1f` (and `\x85`, `\xa0` and other Unicode spaces) as whitespace; `IsSpace` does not, so a line carrying those characters strips differently in the source.
- Digits are ASCII digits. Python's `\d` in `DUE_RE` and `COMPLETION_RE` also matches other Unicode decimal digits (for example Arabic-Indic `٠`–`٩`); `IsDigit` and `DateShaped` accept only `0`–`9`, so such a date is not recognised by the model.
- Dates.Parse: accepts only the `\d{4}-\d{2}-\d{2}` shape. `strptime` also accepts unpadded fields, but the due-date regular expression never hands it any.
- Orderings.CmpStr: compares characters, which orders like Rust's byte-wise UTF-8 comparison and Python's code-point comparison.
- WebLines.Postponed: states that the rebuilt line is a task line with the same done flag. It does not state that the other fields read back unchanged. They do not when, for example, the title holds a marker character.
- WebLines.Edited: states that the edited line is a task line, done as the form says. It does not state how the other fields read back.
- LineFormat.RewriteDoneMarker: proved for lines whose every `✅` belongs to a completion marker. On other lines, deleting one marker can join its neighbours into a new one, because `sub` does not rescan what it produced.
- LineFormat.RewriteOpenNoMarker: proved under the same condition. Without it the claim is false: `- [x] a ✅ ✅ 2024-01-01 2024-01-02` unticks to a line that still holds `✅ 2024-01-02`.
- I18n.Localizer.SetLanguage: a poisoned mutex, which makes the source skip the update, is not modelled.
- The translation tables are a map parameter. Reading them from the embedded JSON files is not modelled.

## Findings

| source | as written | input that shows it | evidently intended | confidence | as-written member | corrected member |
|---|---|---|---|---|---|---|
| webapp/app.py:422 | the `toggle` route decides the line is done when `- [x]` or `- [X]` occurs anywhere in it, and then rewrites towards "open" | the open task `- [ ] a - [x]`: the route unticks the `- [x]` in the title and the task stays open | flip the task's own checkbox, as `parse_line` reads it | not executed | WebLines.TodoFile.Toggle | WebLines.TodoFile.ToggleFlipped |
