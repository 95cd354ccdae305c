/** `load_todos` of the web front end: the file's lines are read top to
    bottom; a line whose stripped text starts with `###` opens a section, any
    other line is handed to `parse_line` with the current section and kept
    when it is a task line. The specification functions take the way a line
    is read as a parameter (`WebReader` in `Loaded`), so that what the loop
    does with sections and line order is stated for any reader whose parser
    reports the line and index it was given. */
module WebLoad {
  import opened Wrappers
  import opened Text
  import opened LineFormat

  /** How one line is read: as a heading and the section it opens, and as a task. */
  datatype Reader = Reader(heading: string -> Option<string>, parse: (string, nat, string) -> Option<WebTodo>)

  /** The stripped line starts with `###` (`trimmed.startswith('###')`). */
  predicate IsHeading(line: string) {
    var t := Strip(line);
    |t| >= 3 && t[0] == '#' && t[1] == '#' && t[2] == '#'
  }

  /** `trimmed.lstrip('#').strip()`: the section a heading opens. */
  function HeadingText(line: string): string {
    Strip(LStripChar(Strip(line), '#'))
  }

  function HeadingOf(line: string): (r: Option<string>)
    ensures r.Some? <==> IsHeading(line)
  {
    if IsHeading(line) then Some(HeadingText(line)) else None
  }

  /** `load_todos`'s way of reading a line. */
  const WebReader := Reader(HeadingOf, ParseLine)

  /** The section in force at line `i`: the text of the last heading above it, else `noSection`. */
  function SectionAt(rd: Reader, lines: seq<string>, i: nat, noSection: string): string
    requires i <= |lines|
  {
    if i == 0 then noSection
    else match rd.heading(lines[i - 1])
      case Some(h) => h
      case None => SectionAt(rd, lines, i - 1, noSection)
  }

  /** What line `i` contributes: its task, unless it is a heading or no task line. */
  function TaskAt(rd: Reader, lines: seq<string>, i: nat, noSection: string): seq<WebTodo>
    requires i < |lines|
  {
    if rd.heading(lines[i]).Some? then []
    else match rd.parse(lines[i], i, SectionAt(rd, lines, i, noSection))
      case None => []
      case Some(t) => [t]
  }

  /** The tasks of the first `n` lines, in line order. */
  function LoadedUpTo(rd: Reader, lines: seq<string>, n: nat, noSection: string): seq<WebTodo>
    requires n <= |lines|
  {
    if n == 0 then [] else LoadedUpTo(rd, lines, n - 1, noSection) + TaskAt(rd, lines, n - 1, noSection)
  }

  /** The tasks of the whole file, as `load_todos` reads them. */
  function Loaded(lines: seq<string>, noSection: string): seq<WebTodo> {
    LoadedUpTo(WebReader, lines, |lines|, noSection)
  }

  /** The reader's parser reports the line and the index it was given. */
  ghost predicate Reports(rd: Reader) {
    forall line, i, section :: rd.parse(line, i, section).Some? ==>
      rd.parse(line, i, section).value.lineIndex == i && rd.parse(line, i, section).value.rawLine == line
  }

  /** The loop of `load_todos` with its `current_section`, for a reader `rd`:
      a heading line replaces the section, any other line is parsed under the
      current section and its task, if any, appended. */
  method ReadLines(rd: Reader, lines: seq<string>, noSection: string) returns (items: seq<WebTodo>)
    ensures items == LoadedUpTo(rd, lines, |lines|, noSection)
  {
    items := [];
    var section := noSection;
    var i := 0;
    while i < |lines|
      invariant 0 <= i <= |lines|
      invariant section == SectionAt(rd, lines, i, noSection)
      invariant items == LoadedUpTo(rd, lines, i, noSection)
    {
      var heading := rd.heading(lines[i]);
      if heading.Some? {
        section := heading.value;
      } else {
        var item := rd.parse(lines[i], i, section);
        if item.Some? {
          items := items + [item.value];
        }
      }
      i := i + 1;
    }
  }

  /** `load_todos`: the loop run with `HeadingOf` and `ParseLine`. */
  method LoadTodos(lines: seq<string>, noSection: string) returns (items: seq<WebTodo>)
    ensures items == Loaded(lines, noSection)
  {
    items := ReadLines(WebReader, lines, noSection);
  }

  /** A line whose stripped start is a checkbox starts with `-`, so it is no heading. */
  lemma BoxNotHeading(line: string)
    requires StartsWith(LStrip(line), OpenBox) || StartsWith(LStrip(line), DoneBox) || StartsWith(LStrip(line), DoneBoxUpper)
    ensures !IsHeading(line)
  {
    var l := LStrip(line);
    var box := l[..5];
    assert box == OpenBox || box == DoneBox || box == DoneBoxUpper;
    assert box[0] == '-';
    assert l[0] == box[0];
    StripStart(line);
  }

  /** Stripping both ends starts where stripping the left end does. */
  lemma StripStart(s: string)
    requires |LStrip(s)| > 0
    ensures |Strip(s)| > 0 && Strip(s)[0] == LStrip(s)[0]
  {
    var k := |s| - |LStrip(s)|;
    var t := Strip(s);
    assert s[k] == LStrip(s)[0];
    assert !IsSpace(s[k]);
    assert k < k + |t|;
    assert t[0] == s[k];
  }

  /** A task line is never a heading, so skipping headings loses no task. */
  lemma TaskNotHeading(line: string, lineIndex: nat, section: string)
    requires ParseLine(line, lineIndex, section).Some?
    ensures !IsHeading(line)
  {
    BoxNotHeading(line);
  }

  /** `WebReader` reads a line with `HeadingOf` and `ParseLine`. */
  lemma WebReaderReads(line: string, i: nat, section: string)
    ensures WebReader.heading(line) == HeadingOf(line)
    ensures WebReader.parse(line, i, section) == ParseLine(line, i, section)
  {
  }

  lemma WebReaderReports()
    ensures Reports(WebReader)
  {
  }

  /** Each item is the task `rd` reads from the line it names, under the
      section in force there, and that line is among the first `n`. */
  ghost predicate FromLines(rd: Reader, lines: seq<string>, n: nat, noSection: string, items: seq<WebTodo>)
    requires n <= |lines|
  {
    forall k :: 0 <= k < |items| ==>
      items[k].lineIndex < n && items[k].rawLine == lines[items[k].lineIndex] &&
      rd.parse(lines[items[k].lineIndex], items[k].lineIndex, SectionAt(rd, lines, items[k].lineIndex, noSection)) == Some(items[k])
  }

  /** The items' line indices strictly increase. */
  predicate InLineOrder(items: seq<WebTodo>) {
    forall k, l :: 0 <= k < l < |items| ==> items[k].lineIndex < items[l].lineIndex
  }

  /** Each loaded task is the line it names, read under the section in force
      there, and the line indices strictly increase. */
  lemma {:induction false} LoadedFacts(rd: Reader, lines: seq<string>, n: nat, noSection: string)
    requires n <= |lines| && Reports(rd)
    ensures FromLines(rd, lines, n, noSection, LoadedUpTo(rd, lines, n, noSection))
    ensures InLineOrder(LoadedUpTo(rd, lines, n, noSection))
  {
    if n > 0 {
      LoadedFacts(rd, lines, n - 1, noSection);
      var a := LoadedUpTo(rd, lines, n - 1, noSection);
      var b := TaskAt(rd, lines, n - 1, noSection);
      var items := LoadedUpTo(rd, lines, n, noSection);
      assert items == a + b;
      assert |b| <= 1;
      forall k | 0 <= k < |items|
        ensures items[k].lineIndex < n && items[k].rawLine == lines[items[k].lineIndex]
        ensures rd.parse(lines[items[k].lineIndex], items[k].lineIndex, SectionAt(rd, lines, items[k].lineIndex, noSection)) == Some(items[k])
      {
        if k < |a| {
          assert items[k] == a[k];
        } else {
          assert items[k] == b[0];
          assert rd.parse(lines[n - 1], n - 1, SectionAt(rd, lines, n - 1, noSection)) == Some(b[0]);
        }
      }
      forall k, l | 0 <= k < l < |items|
        ensures items[k].lineIndex < items[l].lineIndex
      {
        if l < |a| {
          assert items[k] == a[k] && items[l] == a[l];
        } else {
          assert items[k] == a[k] && items[l] == b[0];
        }
      }
    }
  }

  /** Every line the parser accepts, headings aside, is loaded. */
  lemma {:induction false} LoadedComplete(rd: Reader, lines: seq<string>, n: nat, noSection: string, i: nat)
    requires i < n <= |lines| && rd.heading(lines[i]).None?
    requires rd.parse(lines[i], i, SectionAt(rd, lines, i, noSection)).Some?
    ensures rd.parse(lines[i], i, SectionAt(rd, lines, i, noSection)).value in LoadedUpTo(rd, lines, n, noSection)
  {
    if i < n - 1 {
      LoadedComplete(rd, lines, n - 1, noSection, i);
    }
  }

  /** `load_todos` reads every task line of the file, under the section in
      force at it, in line order, and no two of its tasks share a line. */
  lemma LoadedTasks(lines: seq<string>, noSection: string)
    ensures FromLines(WebReader, lines, |lines|, noSection, Loaded(lines, noSection))
    ensures InLineOrder(Loaded(lines, noSection))
    ensures forall i :: 0 <= i < |lines| && ParseLine(lines[i], i, SectionAt(WebReader, lines, i, noSection)).Some? ==>
      ParseLine(lines[i], i, SectionAt(WebReader, lines, i, noSection)).value in Loaded(lines, noSection)
  {
    WebReaderReports();
    LoadedFacts(WebReader, lines, |lines|, noSection);
    forall i | 0 <= i < |lines| && ParseLine(lines[i], i, SectionAt(WebReader, lines, i, noSection)).Some?
      ensures ParseLine(lines[i], i, SectionAt(WebReader, lines, i, noSection)).value in Loaded(lines, noSection)
    {
      var section := SectionAt(WebReader, lines, i, noSection);
      TaskNotHeading(lines[i], i, section);
      WebReaderReads(lines[i], i, section);
      LoadedComplete(WebReader, lines, |lines|, noSection, i);
    }
  }

  /** The section in force is the one the nearest heading above opens, for any reader. */
  lemma {:induction false} SectionAfter(rd: Reader, lines: seq<string>, h: nat, i: nat, noSection: string)
    requires h < i <= |lines| && rd.heading(lines[h]).Some?
    requires forall j :: h < j < i ==> rd.heading(lines[j]).None?
    ensures SectionAt(rd, lines, i, noSection) == rd.heading(lines[h]).value
    decreases i
  {
    if i - 1 > h {
      SectionAfter(rd, lines, h, i - 1, noSection);
    }
  }

  /** In `load_todos`, the section of a line is the text of the nearest heading above it. */
  lemma SectionAfterHeading(lines: seq<string>, h: nat, i: nat, noSection: string)
    requires h < i <= |lines| && IsHeading(lines[h])
    requires forall j :: h < j < i ==> !IsHeading(lines[j])
    ensures SectionAt(WebReader, lines, i, noSection) == HeadingText(lines[h])
  {
    forall j | h <= j < i
      ensures WebReader.heading(lines[j]) == HeadingOf(lines[j])
    {
      WebReaderReads(lines[j], j, noSection);
    }
    SectionAfter(WebReader, lines, h, i, noSection);
  }
}
