/** The web front end's edits to the task file: `add_todo` inserts a new line
    before the `---` separator, `toggle_todo` and the `toggle` route tick or
    untick one line, and `postpone` and `edit` rebuild one line from its
    parts. The file is the list of its lines (`content.splitlines()`), and
    each route replaces or inserts in that list and writes it back. */
module WebLines {
  import opened Wrappers
  import opened Text
  import opened Dates
  import opened LineFormat
  import Seqs

  // ---------------------------------------------------------------------
  // Rebuilding a line

  /** The pieces `postpone` and `edit` write, each already in its final
      form; an absent piece is left out of the line. */
  datatype LineParts = LineParts(
    done: bool,
    title: string,
    project: Option<string>,
    context: Option<string>,
    due: Option<string>,
    reference: Option<string>,
    completion: string,
    marker: Option<string>
  )

  /** ` <lead><value>` when the piece is present. */
  function Tag(lead: string, o: Option<string>): string {
    match o
    case Some(v) => lead + v
    case None => ""
  }

  /** The checkbox and its following space. */
  function BoxText(done: bool): string {
    (if done then DoneBox else OpenBox) + " "
  }

  /** The pieces after the title: `+project`, `@context`, `due:`,
      `[[reference]]`, the completion marker, `^id`, in that order. */
  function Tags(p: LineParts): string {
    Tag(" +", p.project) + Tag(" @", p.context) + Tag(" due:", p.due) +
    (match p.reference case Some(r) => " [[" + r + "]]" case None => "") + p.completion + Tag(" ^", p.marker)
  }

  /** The rebuilt line: checkbox, title, then the other pieces. */
  function Render(p: LineParts): string {
    BoxText(p.done) + p.title + Tags(p)
  }

  /** A rebuilt line starts with its checkbox. */
  lemma RenderBox(p: LineParts)
    ensures BoxAt(Render(p), 0, if p.done then DoneBox else OpenBox)
  {
    var box := if p.done then DoneBox else OpenBox;
    PrefixOfConcat(box, " ", 5);
    PrefixOfConcat(BoxText(p.done), p.title, 5);
    PrefixOfConcat(BoxText(p.done) + p.title, Tags(p), 5);
    assert Render(p)[..5] == box[..5] == box;
  }

  /** A rebuilt line is a task line, ticked exactly when its parts say so. */
  lemma RenderParses(p: LineParts, lineIndex: nat, section: string)
    ensures ParseLine(Render(p), lineIndex, section).Some?
    ensures ParseLine(Render(p), lineIndex, section).value.done == p.done
  {
    RenderBox(p);
    BoxParse(Render(p), 0, if p.done then DoneBox else OpenBox, lineIndex, section);
  }

  /** `x and x.strip()`, then `x.strip()`: a present, non-blank piece, stripped. */
  function NonBlank(o: Option<string>): (r: Option<string>)
    ensures r.Some? <==> o.Some? && Strip(o.value) != ""
    ensures r.Some? ==> r.value == Strip(o.value) && !IsSpace(r.value[0]) && !IsSpace(r.value[|r.value| - 1])
  {
    match o
    case Some(v) => if Strip(v) != "" then Some(Strip(v)) else None
    case None => None
  }

  /** Python truthiness of an optional string: present and not empty. */
  function Truthy(o: Option<string>): (r: Option<string>)
    ensures r.Some? <==> o.Some? && o.value != ""
    ensures r.Some? ==> r == o
  {
    match o
    case Some(v) => if v != "" then o else None
    case None => None
  }

  /** `edit`'s `clean_project` / `clean_context`: the stripped piece with its
      leading `c`s dropped, kept when something remains. */
  function CleanTag(o: Option<string>, c: char): (r: Option<string>)
    ensures r.None? <==> o.None? || AllChar(Strip(o.value), c)
    ensures r.Some? ==> var s := Strip(o.value);
      r.value != "" && r.value[0] != c && |r.value| <= |s| && r.value == s[|s| - |r.value|..] &&
      AllChar(s[..|s| - |r.value|], c)
  {
    match o
    case None => None
    case Some(v) =>
      var s := Strip(v);
      LStripCharEmpty(s, c);
      var clean := LStripChar(s, c);
      if clean != "" then Some(clean) else None
  }

  /** Every character of `s` is `c`. */
  predicate AllChar(s: string, c: char) {
    forall i :: 0 <= i < |s| ==> s[i] == c
  }

  /** Stripping the leading `c`s leaves nothing exactly when `s` is all `c`s,
      and what it drops is all `c`s. */
  lemma LStripCharEmpty(s: string, c: char)
    ensures LStripChar(s, c) == [] <==> AllChar(s, c)
    ensures AllChar(s[..|s| - |LStripChar(s, c)|], c)
  {
    var clean := LStripChar(s, c);
    if clean != [] {
      assert s[|s| - |clean|] == clean[0];
    }
  }

  /** `COMPLETION_RE.search(line).group(0)`, or nothing. */
  function CompletionText(line: string): (r: string)
    ensures FindCompletion(line, 0).None? <==> r == ""
    ensures FindCompletion(line, 0).Some? ==> OccursAt(line, r, FindCompletion(line, 0).value) && |r| == 13 && CompletionAt(r, 0)
  {
    match FindCompletion(line, 0)
    case None => ""
    case Some(k) =>
      var r := line[k..k + 13];
      assert r[3..13] == line[k + 3..k + 13];
      r
  }

  // ---------------------------------------------------------------------
  // postpone

  /** The new due date of `postpone`: tomorrow, 9999-12-31 for "sometimes",
      else today; `None` where `today + timedelta(days=1)` overflows. */
  function PostponeDate(target: string, today: Date): (r: Option<Date>)
    requires Valid(today)
    ensures r.Some? ==> Valid(r.value)
  {
    if target == "tomorrow" then NextDay(today)
    else if target == "sometimes" then Some(Sometimes)
    else Some(today)
  }

  /** `postpone` never moves a task before today, and moves it to the day
      after only for "tomorrow", which fails on the last representable day. */
  lemma PostponeDateFacts(target: string, today: Date)
    requires Valid(today)
    ensures var r := PostponeDate(target, today);
      (r.None? <==> target == "tomorrow" && today == Sometimes) &&
      (r.Some? ==> Valid(r.value) && !Before(r.value, today)) &&
      (target == "tomorrow" && r.Some? ==>
        Before(today, r.value) && forall e :: Valid(e) && Before(today, e) ==> !Before(e, r.value)) &&
      (target == "sometimes" ==> r == Some(Sometimes)) &&
      (target != "tomorrow" && target != "sometimes" ==> r == Some(today))
  {
    var r := PostponeDate(target, today);
    if r.Some? {
      CmpDateFacts(today, r.value, today);
    }
  }

  /** The parts `postpone` writes for the parsed task `item` of `line`. */
  function PostponeParts(item: WebTodo, line: string, newDate: Date): LineParts
    requires Valid(newDate)
  {
    LineParts(
      item.done,
      Strip(item.title),
      NonBlank(item.project),
      NonBlank(item.context),
      Some(Format(newDate)),
      NonBlank(item.reference),
      if item.done then CompletionText(line) else "",
      Truthy(CaptureToken(IdRe, line)))
  }

  /** `postpone` on one line: `None` when the route leaves the file as it is
      (no task line, or the date overflows). */
  function PostponeLine(line: string, lineIndex: nat, target: string, today: Date): (r: Option<string>)
    requires Valid(today)
  {
    match ParseLine(line, lineIndex, "")
    case None => None
    case Some(item) =>
      match PostponeDate(target, today)
      case None => None
      case Some(d) => Some(Render(PostponeParts(item, line, d)))
  }

  /** Postponing rewrites exactly the task lines and keeps whether they are done. */
  lemma Postponed(line: string, lineIndex: nat, target: string, today: Date)
    requires Valid(today)
    ensures var r := PostponeLine(line, lineIndex, target, today);
      r.Some? <==> ParseLine(line, lineIndex, "").Some? && PostponeDate(target, today).Some?
    ensures var r := PostponeLine(line, lineIndex, target, today);
      r.Some? ==>
        ParseLine(r.value, lineIndex, "").Some? &&
        ParseLine(r.value, lineIndex, "").value.done == ParseLine(line, lineIndex, "").value.done
  {
    var r := PostponeLine(line, lineIndex, target, today);
    if r.Some? {
      var item := ParseLine(line, lineIndex, "").value;
      RenderParses(PostponeParts(item, line, PostponeDate(target, today).value), lineIndex, "");
    }
  }

  // ---------------------------------------------------------------------
  // edit

  /** The fields of the edit form; a field the request lacks is `None`. */
  datatype EditForm = EditForm(
    title: Option<string>,
    comment: Option<string>,
    project: Option<string>,
    context: Option<string>,
    due: Option<string>,
    reference: Option<string>,
    done: bool
  )

  /** The new title: `title (comment)` when the comment is not blank. */
  function EditTitle(title: string, comment: Option<string>): (r: string)
    ensures NonBlank(comment).None? ==> r == Strip(title)
    ensures NonBlank(comment).Some? ==> r == Strip(Strip(title) + " (" + Strip(comment.value) + ")")
  {
    match NonBlank(comment)
    case None => Strip(title)
    case Some(c) => Strip(Strip(title) + " (" + c + ")")
  }

  /** `completion_str`: nothing for an open task; for a done one the line's
      first marker when the line was already ticked and has one, else today's. */
  function EditCompletion(line: string, done: bool, today: Date): (r: string)
    requires Valid(today)
    ensures !done ==> r == ""
    ensures done ==> |r| == 13 && CompletionAt(r, 0)
    ensures done && (Contains(line, DoneBox) || Contains(line, DoneBoxUpper)) && FindCompletion(line, 0).Some? ==>
      OccursAt(line, r, FindCompletion(line, 0).value)
    ensures done && !((Contains(line, DoneBox) || Contains(line, DoneBoxUpper)) && FindCompletion(line, 0).Some?) ==>
      r == DoneMarker(today)
  {
    if !done then ""
    else if FindCompletion(line, 0).Some? && (Contains(line, DoneBox) || Contains(line, DoneBoxUpper)) then CompletionText(line)
    else DoneMarker(today)
  }

  /** The parts `edit` writes for `line` and the submitted form. */
  function EditParts(line: string, title: string, form: EditForm, today: Date): LineParts
    requires Valid(today)
  {
    LineParts(
      form.done,
      EditTitle(title, form.comment),
      CleanTag(form.project, '+'),
      CleanTag(form.context, '@'),
      NonBlank(form.due),
      NonBlank(form.reference),
      EditCompletion(line, form.done, today),
      Truthy(CaptureToken(IdRe, line)))
  }

  /** `edit` on one line: `None` when the form has no title, where the route
      fails on `title.strip()` before writing. */
  function EditLine(line: string, form: EditForm, today: Date): (r: Option<string>)
    requires Valid(today)
  {
    match form.title
    case None => None
    case Some(t) => Some(Render(EditParts(line, t, form, today)))
  }

  /** An edited line is a task line, ticked exactly when the form says so. */
  lemma Edited(line: string, form: EditForm, today: Date, lineIndex: nat, section: string)
    requires Valid(today)
    ensures EditLine(line, form, today).Some? <==> form.title.Some?
    ensures var r := EditLine(line, form, today);
      r.Some? ==> ParseLine(r.value, lineIndex, section).Some? && ParseLine(r.value, lineIndex, section).value.done == form.done
  {
    if form.title.Some? {
      RenderParses(EditParts(line, form.title.value, form, today), lineIndex, section);
    }
  }

  // ---------------------------------------------------------------------
  // toggle

  /** The `toggle` route's target as written: done unless the line holds
      `- [x]` or `- [X]` anywhere. */
  function ToggleTargetAsWritten(line: string): bool {
    !(Contains(line, DoneBox) || Contains(line, DoneBoxUpper))
  }

  /** The target the route means to flip to: the opposite of the line's
      parsed state, and the as-written test on a line that is no task. */
  function ToggleTarget(line: string): bool {
    match ParseLine(line, 0, "")
    case Some(item) => !item.done
    case None => ToggleTargetAsWritten(line)
  }

  /** `line` is an open task whose text also holds `- [x]` or `- [X]`. */
  predicate OpenHoldingDoneBox(line: string, lineIndex: nat) {
    ParseLine(line, lineIndex, "").Some? && !ParseLine(line, lineIndex, "").value.done &&
    (Contains(line, DoneBox) || Contains(line, DoneBoxUpper))
  }

  /** An open task whose text also holds `- [x]` or `- [X]` stays open
      under the route as written: the target is "open", and the rewrite
      unticks the first `- [x]`, which is not the checkbox. */
  lemma ToggleAsWrittenMisses(line: string, today: Date, lineIndex: nat, section: string)
    requires Valid(today)
    requires ParseLine(line, lineIndex, section).Some? && !ParseLine(line, lineIndex, section).value.done
    requires Contains(line, DoneBox) || Contains(line, DoneBoxUpper)
    ensures !ToggleTargetAsWritten(line)
    ensures var r := RewriteLine(line, ToggleTargetAsWritten(line), today);
      ParseLine(r, lineIndex, section).Some? && !ParseLine(r, lineIndex, section).value.done
  {
    RewriteDoneFlag(line, false, today, lineIndex, section);
  }

  /** Such lines exist: `- [ ] <t> - [x]` is an open task holding `- [x]`, whatever `t` is. */
  lemma OpenTaskHoldingDoneBox(t: string)
    ensures var line := OpenBox + " " + t + " " + DoneBox;
      ParseLine(line, 0, "").Some? && !ParseLine(line, 0, "").value.done && Contains(line, DoneBox)
  {
    var line := OpenBox + " " + t + " " + DoneBox;
    ExampleShape(t);
    BoxParse(line, 0, OpenBox, 0, "");
    ContainsIff(line, DoneBox);
  }

  lemma ExampleShape(t: string)
    ensures var head := OpenBox + " " + t + " ";
      BoxAt(head + DoneBox, 0, OpenBox) && OccursAt(head + DoneBox, DoneBox, |head|)
  {
    var head := OpenBox + " " + t + " ";
    var line := head + DoneBox;
    PrefixOfConcat(OpenBox, " ", 5);
    PrefixOfConcat(OpenBox + " ", t, 5);
    PrefixOfConcat(OpenBox + " " + t, " ", 5);
    PrefixOfConcat(head, DoneBox, 5);
    assert line[..5] == OpenBox;
    assert line[|head|..|head| + 5] == DoneBox;
  }

  /** The corrected route flips a task line's parsed state. */
  lemma ToggleFlips(line: string, today: Date, lineIndex: nat, section: string)
    requires Valid(today) && ParseLine(line, lineIndex, section).Some?
    ensures var r := RewriteLine(line, ToggleTarget(line), today);
      ParseLine(r, lineIndex, section).Some? &&
      ParseLine(r, lineIndex, section).value.done == !ParseLine(line, lineIndex, section).value.done
  {
    RewriteDoneFlag(line, ToggleTarget(line), today, lineIndex, section);
  }

  // ---------------------------------------------------------------------
  // add_todo

  /** The stripped line is `---`. */
  predicate IsSeparator(line: string) {
    Strip(line) == "---"
  }

  /** Where `add_todo` inserts: before the first separator, else at the end. */
  function InsertIndex(lines: seq<string>): (r: nat)
    ensures r <= |lines|
    ensures r < |lines| ==> IsSeparator(lines[r])
    ensures forall j :: 0 <= j < r ==> !IsSeparator(lines[j])
  {
    Seqs.FirstWhere(lines, IsSeparator)
  }

  /** The line `add_todo` writes. */
  function NewTaskLine(title: string, today: Date): string
    requires Valid(today)
  {
    OpenBox + (" " + title + " due:" + Format(today))
  }

  /** The lines with `x` inserted at `k`. */
  function InsertAt(lines: seq<string>, k: nat, x: string): (r: seq<string>)
    requires k <= |lines|
    ensures |r| == |lines| + 1 && r[k] == x
    ensures forall j :: 0 <= j < k ==> r[j] == lines[j]
    ensures forall j :: k < j < |r| ==> r[j] == lines[j - 1]
  {
    lines[..k] + [x] + lines[k..]
  }

  /** Taking the inserted line out again gives the lines back, so every
      other line keeps its place relative to the others. */
  lemma InsertRemove(lines: seq<string>, k: nat, x: string)
    requires k <= |lines|
    ensures var r := InsertAt(lines, k, x); r[..k] + r[k + 1..] == lines
  {
    var r := InsertAt(lines, k, x);
    assert r[..k] == lines[..k];
    assert r[k + 1..] == lines[k..];
    assert lines[..k] + lines[k..] == lines;
  }

  /** The new line is an open task, and it lands right before the first
      separator, after every line above it. */
  lemma AddedLine(lines: seq<string>, title: string, today: Date, lineIndex: nat, section: string)
    requires Valid(today)
    ensures var k := InsertIndex(lines);
      var r := InsertAt(lines, k, NewTaskLine(title, today));
      ParseLine(r[k], lineIndex, section).Some? && !ParseLine(r[k], lineIndex, section).value.done &&
      (k + 1 < |r| ==> IsSeparator(r[k + 1])) &&
      (forall j :: 0 <= j < k ==> !IsSeparator(r[j]))
  {
    NewTaskLineOpen(title, today, lineIndex, section);
  }

  lemma BoxFirst(box: string, rest: string)
    requires IsBox(box)
    ensures BoxAt(box + rest, 0, box)
  {
    assert (box + rest)[0..5] == box;
  }

  /** The line `add_todo` writes reads back as an open task. */
  lemma NewTaskLineOpen(title: string, today: Date, lineIndex: nat, section: string)
    requires Valid(today)
    ensures ParseLine(NewTaskLine(title, today), lineIndex, section).Some?
    ensures !ParseLine(NewTaskLine(title, today), lineIndex, section).value.done
  {
    BoxFirst(OpenBox, " " + title + " due:" + Format(today));
    BoxParse(NewTaskLine(title, today), 0, OpenBox, lineIndex, section);
  }

  // ---------------------------------------------------------------------
  // The file

  /** The task file as the list of its lines. */
  class TodoFile {
    var lines: seq<string>

    constructor (lines: seq<string>)
      ensures this.lines == lines
    {
      this.lines := lines;
    }

    /** `add_todo` with its search for the separator. */
    method AddTodo(title: string, today: Date)
      requires Valid(today)
      modifies this`lines
      ensures lines == InsertAt(old(lines), InsertIndex(old(lines)), NewTaskLine(title, today))
    {
      var insertIndex := Seqs.FindFirst(lines, IsSeparator);
      lines := InsertAt(lines, insertIndex, NewTaskLine(title, today));
    }

    /** The `add` route: a missing or empty title adds nothing. */
    method Add(title: Option<string>, today: Date)
      requires Valid(today)
      modifies this`lines
      ensures title.Some? && title.value != "" ==> lines == InsertAt(old(lines), InsertIndex(old(lines)), NewTaskLine(title.value, today))
      ensures !(title.Some? && title.value != "") ==> lines == old(lines)
    {
      if title.Some? && title.value != "" {
        AddTodo(title.value, today);
      }
    }

    /** `toggle_todo`: rewrites the line at `lineIndex`; an index past the end changes nothing. */
    method ToggleTodo(lineIndex: nat, done: bool, today: Date)
      requires Valid(today)
      modifies this`lines
      ensures lineIndex < |old(lines)| ==> lines == old(lines)[lineIndex := RewriteLine(old(lines)[lineIndex], done, today)]
      ensures lineIndex >= |old(lines)| ==> lines == old(lines)
    {
      if lineIndex < |lines| {
        lines := lines[lineIndex := RewriteLine(lines[lineIndex], done, today)];
      }
    }

    /** The `toggle` route as written: the target is "done" unless the line
        holds `- [x]` or `- [X]` anywhere, so an open task whose text holds
        one stays open. */
    method Toggle(lineIndex: nat, today: Date)
      requires Valid(today)
      modifies this`lines
      ensures lineIndex < |old(lines)| ==>
        lines == old(lines)[lineIndex := RewriteLine(old(lines)[lineIndex], ToggleTargetAsWritten(old(lines)[lineIndex]), today)]
      ensures lineIndex >= |old(lines)| ==> lines == old(lines)
      ensures lineIndex < |old(lines)| && OpenHoldingDoneBox(old(lines)[lineIndex], lineIndex) ==>
        ParseLine(lines[lineIndex], lineIndex, "").Some? && !ParseLine(lines[lineIndex], lineIndex, "").value.done
    {
      if lineIndex < |lines| {
        var line := lines[lineIndex];
        if OpenHoldingDoneBox(line, lineIndex) {
          ToggleAsWrittenMisses(line, today, lineIndex, "");
        }
        ToggleTodo(lineIndex, ToggleTargetAsWritten(line), today);
      }
    }

    /** The `toggle` route as its comment means it: the task line's own
        checkbox is flipped. */
    method ToggleFlipped(lineIndex: nat, today: Date)
      requires Valid(today)
      modifies this`lines
      ensures lineIndex < |old(lines)| ==>
        lines == old(lines)[lineIndex := RewriteLine(old(lines)[lineIndex], ToggleTarget(old(lines)[lineIndex]), today)]
      ensures lineIndex >= |old(lines)| ==> lines == old(lines)
      ensures lineIndex < |old(lines)| && ParseLine(old(lines)[lineIndex], lineIndex, "").Some? ==>
        ParseLine(lines[lineIndex], lineIndex, "").Some? &&
        ParseLine(lines[lineIndex], lineIndex, "").value.done == !ParseLine(old(lines)[lineIndex], lineIndex, "").value.done
    {
      if lineIndex < |lines| {
        var line := lines[lineIndex];
        if ParseLine(line, lineIndex, "").Some? {
          ToggleFlips(line, today, lineIndex, "");
        }
        ToggleTodo(lineIndex, ToggleTarget(line), today);
      }
    }

    /** The `postpone` route. */
    method Postpone(lineIndex: nat, target: string, today: Date)
      requires Valid(today)
      modifies this`lines
      ensures lineIndex < |old(lines)| && PostponeLine(old(lines)[lineIndex], lineIndex, target, today).Some? ==>
        lines == old(lines)[lineIndex := PostponeLine(old(lines)[lineIndex], lineIndex, target, today).value]
      ensures !(lineIndex < |old(lines)| && PostponeLine(old(lines)[lineIndex], lineIndex, target, today).Some?) ==>
        lines == old(lines)
    {
      if lineIndex < |lines| {
        var newLine := PostponeLine(lines[lineIndex], lineIndex, target, today);
        if newLine.Some? {
          lines := lines[lineIndex := newLine.value];
        }
      }
    }

    /** The `edit` route's form submission. */
    method Edit(lineIndex: nat, form: EditForm, today: Date)
      requires Valid(today)
      modifies this`lines
      ensures lineIndex < |old(lines)| && form.title.Some? ==>
        lines == old(lines)[lineIndex := EditLine(old(lines)[lineIndex], form, today).value]
      ensures !(lineIndex < |old(lines)| && form.title.Some?) ==> lines == old(lines)
    {
      if lineIndex < |lines| {
        var newLine := EditLine(lines[lineIndex], form, today);
        if newLine.Some? {
          lines := lines[lineIndex := newLine.value];
        }
      }
    }
  }
}
