/** The web front end's task-line format: the regular expressions it reads
    tokens with (as scanners that find the leftmost match), `parse_line`,
    `extract_title`, `capture_token`, and `rewrite_line`, which ticks or
    unticks a line and maintains its ` ✅ YYYY-MM-DD` completion marker. */
module LineFormat {
  import opened Wrappers
  import opened Text
  import opened Dates

  /** The completion mark `✅` (U+2705). */
  const Check: char := '\U{2705}'

  const OpenBox: string := "- [ ]"
  const DoneBox: string := "- [x]"
  const DoneBoxUpper: string := "- [X]"

  // ---------------------------------------------------------------------
  // The token regular expressions

  /** `LINK_RE`, `PROJECT_RE`, `CONTEXT_RE`, `DUE_RE` and `ID_RE`. */
  datatype Pattern = LinkRe | ProjectRe | ContextRe | DueRe | IdRe

  predicate NotSpace(c: char) { !IsSpace(c) }

  predicate NotCloseBracket(c: char) { c != ']' }

  /** The length of the longest run of characters satisfying `ok` from `i`
      (a greedy `[...]+`). */
  function Run(s: string, i: nat, ok: char -> bool): (n: nat)
    requires i <= |s|
    ensures i + n <= |s|
    ensures forall j :: i <= j < i + n ==> ok(s[j])
    ensures i + n == |s| || !ok(s[i + n])
    decreases |s| - i
  {
    if i < |s| && ok(s[i]) then 1 + Run(s, i + 1, ok) else 0
  }

  /** `<lead>(<class>+)` matching at `i`: the span of the group. */
  function TokenAt(s: string, i: nat, lead: char, ok: char -> bool): (r: Option<(nat, nat)>)
    requires i <= |s|
    ensures r.Some? <==> i < |s| && s[i] == lead && i + 1 < |s| && ok(s[i + 1])
    ensures r.Some? ==> r.value == (i + 1, i + 1 + Run(s, i + 1, ok))
  {
    if i < |s| && s[i] == lead then
      var n := Run(s, i + 1, ok);
      if n > 0 then Some((i + 1, i + 1 + n)) else None
    else None
  }

  /** The span of the first group of a match of `p` starting at `i`, if one does. */
  function GroupAt(p: Pattern, s: string, i: nat): (r: Option<(nat, nat)>)
    requires i <= |s|
    ensures r.Some? ==> i < r.value.0 < r.value.1 <= |s|
  {
    match p
    case ProjectRe => TokenAt(s, i, '+', NotSpace)
    case ContextRe => TokenAt(s, i, '@', NotSpace)
    case IdRe => TokenAt(s, i, '^', IsAlnum)
    case DueRe =>
      if OccursAt(s, "due:", i) && i + 14 <= |s| && DateShaped(s[i + 4..i + 14]) then Some((i + 4, i + 14)) else None
    case LinkRe =>
      if OccursAt(s, "[[", i) then
        var n := Run(s, i + 2, NotCloseBracket);
        if n > 0 && OccursAt(s, "]]", i + 2 + n) then Some((i + 2, i + 2 + n)) else None
      else None
  }

  /** `regex.search(s)` from `from`: the leftmost position where a match starts. */
  function SearchFrom(p: Pattern, s: string, from: nat): (r: Option<nat>)
    requires from <= |s|
    ensures r.Some? ==> from <= r.value <= |s| && GroupAt(p, s, r.value).Some?
    ensures r.Some? ==> forall j :: from <= j < r.value ==> GroupAt(p, s, j).None?
    ensures r.None? ==> forall j :: from <= j <= |s| ==> GroupAt(p, s, j).None?
    decreases |s| - from
  {
    if GroupAt(p, s, from).Some? then Some(from)
    else if from == |s| then None
    else SearchFrom(p, s, from + 1)
  }

  /** `capture_token`: the stripped first group of the leftmost match, or nothing. */
  function CaptureToken(p: Pattern, s: string): (r: Option<string>)
    ensures r.None? <==> forall j :: 0 <= j <= |s| ==> GroupAt(p, s, j).None?
    ensures r.Some? ==>
      exists j :: (0 <= j <= |s| && GroupAt(p, s, j).Some? &&
        (forall i :: 0 <= i < j ==> GroupAt(p, s, i).None?) &&
        r.value == Strip(s[GroupAt(p, s, j).value.0..GroupAt(p, s, j).value.1]))
  {
    match SearchFrom(p, s, 0)
    case None => None
    case Some(j) =>
      var g := GroupAt(p, s, j).value;
      Some(Strip(s[g.0..g.1]))
  }

  // ---------------------------------------------------------------------
  // The completion marker

  /** `COMPLETION_RE` (`\s✅\s\d{4}-\d{2}-\d{2}`) matches at `i`. */
  predicate CompletionAt(s: string, i: int) {
    0 <= i && i + 13 <= |s| && IsSpace(s[i]) && s[i + 1] == Check && IsSpace(s[i + 2]) && DateShaped(s[i + 3..i + 13])
  }

  /** `COMPLETION_RE.sub("", s)`: every match, left to right, deleted. */
  function RemoveCompletions(s: string): (r: string)
    ensures |r| <= |s|
    decreases |s|
  {
    if |s| == 0 then []
    else if CompletionAt(s, 0) then RemoveCompletions(s[13..])
    else [s[0]] + RemoveCompletions(s[1..])
  }

  /** `COMPLETION_RE.search(s)` from `from`. */
  function FindCompletion(s: string, from: nat): (r: Option<nat>)
    ensures r.Some? ==> from <= r.value && CompletionAt(s, r.value)
    ensures r.Some? ==> forall j :: from <= j < r.value ==> !CompletionAt(s, j)
    ensures r.None? ==> forall j :: from <= j ==> !CompletionAt(s, j)
    decreases |s| - from
  {
    if from + 13 > |s| then None
    else if CompletionAt(s, from) then Some(from)
    else FindCompletion(s, from + 1)
  }

  /** The completion marker for `today`: ` ✅ YYYY-MM-DD`. */
  function DoneMarker(today: Date): (m: string)
    requires Valid(today)
    ensures |m| == 13 && CompletionAt(m, 0)
  {
    " " + [Check] + " " + Format(today)
  }

  /** Every `✅` of `s` is the mark of a completion marker. */
  predicate ChecksMarked(s: string) {
    forall j :: 0 <= j < |s| && s[j] == Check ==> CompletionAt(s, j - 1)
  }

  /** A completion marker needs a `✅`. */
  lemma NoCheckNoCompletion(s: string)
    requires Check !in s
    ensures forall i :: !CompletionAt(s, i)
  {
    forall i | 0 <= i && i + 13 <= |s| ensures !CompletionAt(s, i) {
      assert s[i + 1] in s;
    }
  }

  /** The characters of a marker after its `✅`: a space, then the date. */
  lemma CompletionChars(s: string, i: int)
    requires CompletionAt(s, i)
    ensures s[i + 1] == Check && IsSpace(s[i]) && s[i + 2] != Check
    ensures forall p :: i + 3 <= p < i + 13 ==> s[p] != Check && !IsSpace(s[p])
  {
    var w := s[i + 3..i + 13];
    assert forall p :: i + 3 <= p < i + 13 ==> s[p] == w[p - (i + 3)];
  }

  /** Two completion markers never overlap. */
  lemma CompletionsDisjoint(s: string, i: int, j: int)
    requires CompletionAt(s, i) && CompletionAt(s, j) && i < j
    ensures i + 13 <= j
  {
    CompletionChars(s, i);
    CompletionChars(s, j);
  }

  lemma CompletionAtShift(s: string, d: nat, i: int)
    requires d <= |s|
    ensures CompletionAt(s[d..], i) <==> i >= 0 && CompletionAt(s, i + d)
  {
    if i >= 0 && i + 13 <= |s| - d {
      assert s[d..][i + 3..i + 13] == s[i + d + 3..i + d + 13];
    }
  }

  /** On a line whose every `✅` belongs to a marker, `sub` removes every `✅`. */
  lemma {:induction false} RemoveCompletionsClearsChecks(s: string)
    requires ChecksMarked(s)
    ensures Check !in RemoveCompletions(s)
    decreases |s|
  {
    if |s| == 0 {
    } else if CompletionAt(s, 0) {
      var t := s[13..];
      forall j | 0 <= j < |t| && t[j] == Check ensures CompletionAt(t, j - 1) {
        assert s[j + 13] == Check;
        assert CompletionAt(s, j + 12);
        CompletionsDisjoint(s, 0, j + 12);
        CompletionAtShift(s, 13, j - 1);
      }
      RemoveCompletionsClearsChecks(t);
    } else {
      var t := s[1..];
      assert s[0] != Check;
      forall j | 0 <= j < |t| && t[j] == Check ensures CompletionAt(t, j - 1) {
        assert s[j + 1] == Check;
        assert CompletionAt(s, j);
        CompletionAtShift(s, 1, j - 1);
      }
      RemoveCompletionsClearsChecks(t);
    }
  }

  /** A line without markers is left as it is. */
  lemma {:induction false} RemoveCompletionsIdentity(s: string)
    requires forall i :: !CompletionAt(s, i)
    ensures RemoveCompletions(s) == s
    decreases |s|
  {
    if |s| > 0 {
      forall i ensures !CompletionAt(s[1..], i) {
        CompletionAtShift(s, 1, i);
      }
      RemoveCompletionsIdentity(s[1..]);
    }
  }

  /** Before the first marker, `sub` copies the line. */
  lemma {:induction false} RemoveCompletionsPrefix(s: string, n: nat)
    requires n <= |s|
    requires forall i :: 0 <= i < n ==> !CompletionAt(s, i)
    ensures RemoveCompletions(s) == s[..n] + RemoveCompletions(s[n..])
    decreases n
  {
    if n > 0 {
      var t := s[1..];
      forall i | 0 <= i < n - 1 ensures !CompletionAt(t, i) {
        CompletionAtShift(s, 1, i);
      }
      RemoveCompletionsPrefix(t, n - 1);
      assert t[n - 1..] == s[n..];
      assert [s[0]] + t[..n - 1] == s[..n];
    } else {
      assert s[0..] == s;
    }
  }

  // ---------------------------------------------------------------------
  // The title

  /** The markers `extract_title` cuts at, in its order. */
  const TitleMarkers: seq<string> := [" +", " @", " due:", " [[", " " + [Check], " ^", "+", "@", "due:", "[[", [Check], "^"]

  /** The cut the marker loop settles on: the least position where one of `ms` occurs, else the length. */
  function EarliestCut(rest: string, ms: seq<string>): (cut: nat)
    requires forall m :: m in ms ==> |m| > 0
    ensures cut <= |rest|
    ensures forall m :: m in ms && Find(rest, m).Some? ==> cut <= Find(rest, m).value
    ensures cut == |rest| || exists m :: m in ms && Find(rest, m) == Some(cut)
    decreases |ms|
  {
    if |ms| == 0 then |rest|
    else
      var init := ms[..|ms| - 1];
      assert forall m :: m in init ==> m in ms;
      var c := EarliestCut(rest, init);
      assert forall m :: m in ms ==> m in init || m == ms[|ms| - 1];
      match Find(rest, ms[|ms| - 1])
      case Some(i) => if i < c then i else c
      case None => c
  }

  /** The stripped text before the earliest of `ms`, or the whole stripped rest when that is empty. */
  function TitleBefore(rest: string, ms: seq<string>): string
    requires forall m :: m in ms ==> |m| > 0
  {
    var cleaned := Strip(rest[..EarliestCut(rest, ms)]);
    if cleaned != "" then cleaned else Strip(rest)
  }

  /** `extract_title`: the title is cut before the first of its markers. */
  function TitleOf(rest: string): string {
    TitleBefore(rest, TitleMarkers)
  }

  /** The loop of `extract_title` over the markers `ms`: each one found
      earlier than the cut so far moves the cut to it. */
  method FirstCut(rest: string, ms: seq<string>) returns (cut: nat)
    requires forall m :: m in ms ==> |m| > 0
    ensures cut == EarliestCut(rest, ms)
  {
    cut := |rest|;
    var i := 0;
    while i < |ms|
      invariant 0 <= i <= |ms|
      invariant cut == EarliestCut(rest, ms[..i])
    {
      EarliestCutSnoc(rest, ms, i);
      var idx := Find(rest, ms[i]);
      if idx.Some? && idx.value < cut {
        cut := idx.value;
      }
      i := i + 1;
    }
    assert ms[..|ms|] == ms;
  }

  lemma EarliestCutSnoc(rest: string, ms: seq<string>, i: nat)
    requires i < |ms| && forall m :: m in ms ==> |m| > 0
    ensures var c := EarliestCut(rest, ms[..i]);
      EarliestCut(rest, ms[..i + 1]) == match Find(rest, ms[i]) case Some(j) => if j < c then j else c case None => c
  {
    assert ms[..i + 1][..i] == ms[..i];
  }

  /** `extract_title`: the cut the marker loop finds, stripped, unless that is empty. */
  method ExtractTitle(rest: string) returns (title: string)
    ensures title == TitleOf(rest)
  {
    var cut := FirstCut(rest, TitleMarkers);
    var cleaned := Strip(rest[..cut]);
    title := if cleaned != "" then cleaned else Strip(rest);
  }

  /** Nothing before the first occurrence is an occurrence. */
  lemma BeforeFind(s: string, m: string, cut: nat)
    requires Find(s, m).Some? ==> cut <= Find(s, m).value
    ensures forall p :: 0 <= p < cut ==> !OccursAt(s, m, p)
  {
  }

  /** A title cut before the markers holds no occurrence of marker `m`. */
  lemma TitleAvoids(rest: string, ms: seq<string>, m: string)
    requires forall m' :: m' in ms ==> |m'| > 0
    requires m in ms
    requires Strip(rest[..EarliestCut(rest, ms)]) != ""
    ensures !Contains(TitleBefore(rest, ms), m)
  {
    var cut := EarliestCut(rest, ms);
    assert Find(rest, m).Some? ==> cut <= Find(rest, m).value;
    CutAvoids(rest, m, cut);
    assert TitleBefore(rest, ms) == Strip(rest[..cut]);
  }

  /** Text cut before the first occurrence of `m` and stripped holds no `m`. */
  lemma CutAvoids(rest: string, m: string, cut: nat)
    requires |m| > 0 && cut <= |rest|
    requires Find(rest, m).Some? ==> cut <= Find(rest, m).value
    ensures !Contains(Strip(rest[..cut]), m)
  {
    var k := StripWindow(rest, cut);
    BeforeFind(rest, m, cut);
    WindowAvoids(rest, m, k, Strip(rest[..cut]), cut);
  }

  /** The stripped prefix `s[..cut]` is a window of `s` ending by `cut`. */
  lemma StripWindow(s: string, cut: nat) returns (k: nat)
    requires cut <= |s|
    ensures k + |Strip(s[..cut])| <= cut && Strip(s[..cut]) == s[k..k + |Strip(s[..cut])|]
  {
    var raw := s[..cut];
    var t := Strip(raw);
    k := |raw| - |LStrip(raw)|;
    assert t == raw[k..k + |t|];
  }

  /** A window of `s` ending by `hi` holds no occurrence of `m` when none starts before `hi`. */
  lemma WindowAvoids(s: string, m: string, lo: nat, t: string, hi: nat)
    requires |m| > 0 && lo + |t| <= hi <= |s| && t == s[lo..lo + |t|]
    requires forall p :: 0 <= p < hi ==> !OccursAt(s, m, p)
    ensures Find(t, m).None?
  {
    forall j | 0 <= j && j + |m| <= |t| ensures !OccursAt(t, m, j) {
      assert forall q :: j <= q < j + |m| ==> t[q] == s[lo + q];
      assert t[j..j + |m|] == s[lo + j..lo + j + |m|];
      assert !OccursAt(s, m, lo + j);
    }
  }

  /** A title cut before the markers holds none of `+`, `@`, `due:`, `[[`, `✅`, `^`. */
  lemma TitleHasNoMarkers(rest: string)
    requires Strip(rest[..EarliestCut(rest, TitleMarkers)]) != ""
    ensures var t := TitleOf(rest);
      !Contains(t, "+") && !Contains(t, "@") && !Contains(t, "due:") &&
      !Contains(t, "[[") && !Contains(t, [Check]) && !Contains(t, "^")
  {
    var t := TitleOf(rest);
    assert t == TitleBefore(rest, TitleMarkers);
    forall n | 6 <= n < 12 ensures !Contains(t, TitleMarkers[n]) {
      TitleAvoids(rest, TitleMarkers, TitleMarkers[n]);
    }
    assert TitleMarkers[6] == "+" && TitleMarkers[7] == "@" && TitleMarkers[8] == "due:";
    assert TitleMarkers[9] == "[[" && TitleMarkers[10] == [Check] && TitleMarkers[11] == "^";
  }

  /** When nothing precedes the first marker, the title is the whole stripped rest. */
  lemma TitleFallback(rest: string)
    requires Strip(rest[..EarliestCut(rest, TitleMarkers)]) == ""
    ensures TitleOf(rest) == Strip(rest)
  {
  }

  // ---------------------------------------------------------------------
  // Parsing a line

  /** The dictionary `parse_line` returns; `section` is `None` once a search result hides it. */
  datatype WebTodo = WebTodo(
    lineIndex: nat,
    marker: Option<string>,
    title: string,
    section: Option<string>,
    project: Option<string>,
    context: Option<string>,
    due: Option<Date>,
    reference: Option<string>,
    done: bool,
    rawLine: string
  )

  /** `due_str` read as a date; an empty or impossible date is no date. */
  function DueOf(dueStr: Option<string>): (d: Option<Date>)
    ensures d.Some? ==> dueStr.Some? && Parse(dueStr.value) == d
  {
    match dueStr
    case Some(s) => if s == "" then None else Parse(s)
    case None => None
  }

  /** `parse_line`: a task line starts, after leading whitespace, with
      `- [x]`, `- [X]` or `- [ ]`; the fields are read from the rest. */
  function ParseLine(line: string, lineIndex: nat, section: string): (r: Option<WebTodo>)
    ensures r.None? <==> !(StartsWith(LStrip(line), DoneBox) || StartsWith(LStrip(line), DoneBoxUpper) || StartsWith(LStrip(line), OpenBox))
    ensures r.Some? ==> (r.value.done <==> StartsWith(LStrip(line), DoneBox) || StartsWith(LStrip(line), DoneBoxUpper))
    ensures r.Some? ==> r.value.lineIndex == lineIndex && r.value.section == Some(section) && r.value.rawLine == line
    ensures r.Some? ==> r.value.title == TitleOf(Strip(LStrip(line)[5..]))
  {
    var trimmed := LStrip(line);
    if !(StartsWith(trimmed, DoneBox) || StartsWith(trimmed, DoneBoxUpper) || StartsWith(trimmed, OpenBox)) then None
    else
      var done := StartsWith(trimmed, DoneBox) || StartsWith(trimmed, DoneBoxUpper);
      var rest := Strip(trimmed[5..]);
      Some(WebTodo(
        lineIndex,
        CaptureToken(IdRe, rest),
        TitleOf(rest),
        Some(section),
        CaptureToken(ProjectRe, rest),
        CaptureToken(ContextRe, rest),
        DueOf(CaptureToken(DueRe, rest)),
        CaptureToken(LinkRe, rest),
        done,
        line))
  }

  // ---------------------------------------------------------------------
  // Rewriting a line

  /** Places the completion marker before the first `^id`, or at the end. */
  function PlaceMarker(u: string, marker: string): string {
    match SearchFrom(IdRe, u, 0)
    case Some(start) => RStrip(u[..start]) + marker + " " + LStrip(u[start..])
    case None => RStrip(u) + marker
  }

  /** Ticks the first `- [ ]`, then turns the first `- [X]` into `- [x]`. */
  function Tick(cleaned: string): (u: string)
    ensures Check !in cleaned ==> Check !in u
  {
    var once := ReplaceFirst(cleaned, OpenBox, DoneBox);
    ReplaceFirstNoCheck(cleaned, OpenBox, DoneBox);
    ReplaceFirstNoCheck(once, DoneBoxUpper, DoneBox);
    ReplaceFirst(once, DoneBoxUpper, DoneBox)
  }

  /** Unticks the first `- [x]`, then the first `- [X]`. */
  function Untick(cleaned: string): (u: string)
    ensures Check !in cleaned ==> Check !in u
  {
    var once := ReplaceFirst(cleaned, DoneBox, OpenBox);
    ReplaceFirstNoCheck(cleaned, DoneBox, OpenBox);
    ReplaceFirstNoCheck(once, DoneBoxUpper, OpenBox);
    ReplaceFirst(once, DoneBoxUpper, OpenBox)
  }

  /** `rewrite_line`: drop the old completion markers, then tick the first box
      and add today's marker, or untick the first box. */
  function RewriteLine(line: string, done: bool, today: Date): string
    requires Valid(today)
  {
    var cleaned := RemoveCompletions(line);
    if done then PlaceMarker(Tick(cleaned), DoneMarker(today)) else Untick(cleaned)
  }

  lemma ReplaceFirstNoCheck(s: string, pat: string, rep: string)
    ensures Check !in s && Check !in rep ==> Check !in ReplaceFirst(s, pat, rep)
  {
  }

  /** Ticking a line whose every `✅` belongs to a marker leaves exactly one
      marker, today's, and the line stays in that form. */
  lemma RewriteDoneMarker(line: string, today: Date)
    requires Valid(today) && ChecksMarked(line)
    ensures var r := RewriteLine(line, true, today);
      exists k :: CompletionAt(r, k) && r[k..k + 13] == DoneMarker(today) &&
        (forall i :: CompletionAt(r, i) ==> i == k)
    ensures ChecksMarked(RewriteLine(line, true, today))
  {
    RemoveCompletionsClearsChecks(line);
    var u := Tick(RemoveCompletions(line));
    var m := DoneMarker(today);
    assert RewriteLine(line, true, today) == PlaceMarker(u, m);
    PlaceMarkerAround(u, m);
    var a, b := BeforeMarker(u), AfterMarker(u);
    MarkerBetween(a, m, b);
    assert CompletionAt(a + m + b, |a|);
  }

  /** What `PlaceMarker` puts before the marker. */
  function BeforeMarker(u: string): (a: string)
    ensures Check !in u ==> Check !in a
  {
    match SearchFrom(IdRe, u, 0)
    case Some(start) => RStrip(u[..start])
    case None => RStrip(u)
  }

  /** What `PlaceMarker` puts after the marker. */
  function AfterMarker(u: string): (b: string)
    ensures Check !in u ==> Check !in b
  {
    match SearchFrom(IdRe, u, 0)
    case Some(start) => " " + LStrip(u[start..])
    case None => ""
  }

  lemma PlaceMarkerAround(u: string, m: string)
    ensures PlaceMarker(u, m) == BeforeMarker(u) + m + AfterMarker(u)
  {
  }

  /** Ticking puts today's marker, and a space, right before the line's first
      `^id`, which stays the first `^id` and keeps everything after it; the
      text before the marker is the text before the `^id` with trailing
      whitespace dropped. A line without `^id` ends with the marker and still
      has none. */
  lemma RewriteMarksBeforeId(line: string, today: Date)
    requires Valid(today)
    ensures var u := Tick(RemoveCompletions(line));
      var r := RewriteLine(line, true, today);
      var m := DoneMarker(today);
      match SearchFrom(IdRe, u, 0)
      case Some(start) =>
        var k := |RStrip(u[..start])|;
        k + 14 <= |r| && r[..k] == RStrip(u[..start]) && r[k..k + 13] == m && r[k + 13] == ' ' &&
        r[k + 14..] == u[start..] && SearchFrom(IdRe, r, 0) == Some(k + 14)
      case None =>
        |r| >= 13 && r[..|r| - 13] == RStrip(u) && r[|r| - 13..] == m && SearchFrom(IdRe, r, 0).None?
  {
    RewriteDone(line, today);
    MarkerNoCaret(DoneMarker(today));
    PlaceMarkerCases(Tick(RemoveCompletions(line)), DoneMarker(today));
  }

  /** `RewriteMarksBeforeId` for any marker of 13 characters without `^` that starts with a space. */
  lemma PlaceMarkerCases(u: string, m: string)
    requires |m| == 13 && '^' !in m && !IsAlnum(m[0])
    ensures var r := PlaceMarker(u, m);
      match SearchFrom(IdRe, u, 0)
      case Some(start) =>
        var k := |RStrip(u[..start])|;
        k + 14 <= |r| && r[..k] == RStrip(u[..start]) && r[k..k + 13] == m && r[k + 13] == ' ' &&
        r[k + 14..] == u[start..] && SearchFrom(IdRe, r, 0) == Some(k + 14)
      case None =>
        |r| >= 13 && r[..|r| - 13] == RStrip(u) && r[|r| - 13..] == m && SearchFrom(IdRe, r, 0).None?
  {
    match SearchFrom(IdRe, u, 0) {
      case Some(start) =>
        PlaceMarkerBeforeId(u, m, start);
        JoinParts(RStrip(u[..start]), m, u[start..]);
      case None =>
        PlaceMarkerNoId(u, m);
        assert PlaceMarker(u, m) == RStrip(u) + m;
        var r := RStrip(u) + m;
        assert r[..|r| - 13] == RStrip(u) && r[|r| - 13..] == m;
    }
  }

  lemma RewriteDone(line: string, today: Date)
    requires Valid(today)
    ensures RewriteLine(line, true, today) == PlaceMarker(Tick(RemoveCompletions(line)), DoneMarker(today))
  {
  }

  lemma JoinParts(a: string, m: string, b: string)
    requires |m| == 13
    ensures var r := a + m + " " + b;
      r[..|a|] == a && r[|a|..|a| + 13] == m && r[|a| + 13] == ' ' && r[|a| + 14..] == b
  {
  }

  /** The completion marker holds no `^` and starts with a space. */
  lemma MarkerNoCaret(m: string)
    requires |m| == 13 && CompletionAt(m, 0)
    ensures '^' !in m && !IsAlnum(m[0])
  {
    var w := m[3..13];
    assert forall p :: 3 <= p < 13 ==> m[p] == w[p - 3];
    assert forall p :: 0 <= p < 10 ==> w[p] != '^';
  }

  /** No `^id` starts in `a + m`, where `a` is a prefix of a line `u` without
      one before `|a|` and `m` holds no `^` and starts with no letter or digit. */
  lemma NoIdInPrefix(u: string, a: string, m: string, r: string, j: nat)
    requires |a| <= |u| && a == u[..|a|] && |r| > |a| + |m| && r[..|a| + |m|] == a + m
    requires '^' !in m && |m| > 0 && !IsAlnum(m[0])
    requires forall i :: 0 <= i < |a| ==> GroupAt(IdRe, u, i).None?
    requires j < |a| + |m|
    ensures GroupAt(IdRe, r, j).None?
  {
    assert r[j] == (a + m)[j];
    assert GroupAt(IdRe, r, j) == TokenAt(r, j, '^', IsAlnum);
    if j < |a| {
      assert r[j] == u[j];
      assert GroupAt(IdRe, u, j) == TokenAt(u, j, '^', IsAlnum);
      if j + 1 < |a| {
        assert r[j + 1] == (a + m)[j + 1] == u[j + 1];
      } else {
        assert r[j + 1] == (a + m)[j + 1] == m[0];
      }
    } else {
      assert r[j] == m[j - |a|];
    }
  }

  lemma SearchFromFirst(p: Pattern, s: string, k: nat)
    requires k <= |s| && GroupAt(p, s, k).Some?
    requires forall j :: 0 <= j < k ==> GroupAt(p, s, j).None?
    ensures SearchFrom(p, s, 0) == Some(k)
  {
  }

  /** With an `^id` in `u`, `PlaceMarker` keeps the `^id` and everything after it,
      and it is the first `^id` of the result. */
  lemma PlaceMarkerBeforeId(u: string, m: string, start: nat)
    requires '^' !in m && |m| > 0 && !IsAlnum(m[0])
    requires SearchFrom(IdRe, u, 0) == Some(start)
    ensures var a := RStrip(u[..start]);
      PlaceMarker(u, m) == a + m + " " + u[start..] &&
      SearchFrom(IdRe, PlaceMarker(u, m), 0) == Some(|a| + |m| + 1)
  {
    var a := RStrip(u[..start]);
    IdStartsWithCaret(u, start);
    assert PlaceMarker(u, m) == a + m + " " + u[start..];
    assert a == u[..start][..|a|] == u[..|a|];
    FirstIdAfter(u, a, m, start);
  }

  lemma FirstIdAfter(u: string, a: string, m: string, start: nat)
    requires '^' !in m && |m| > 0 && !IsAlnum(m[0])
    requires SearchFrom(IdRe, u, 0) == Some(start)
    requires |a| <= start && a == u[..|a|]
    ensures SearchFrom(IdRe, a + m + " " + u[start..], 0) == Some(|a| + |m| + 1)
  {
    var r := a + m + " " + u[start..];
    var k := |a| + |m| + 1;
    IdAfterMarker(u, start, a + m + " ");
    assert r[..|a| + |m|] == a + m;
    forall j | 0 <= j < k ensures GroupAt(IdRe, r, j).None? {
      if j < |a| + |m| {
        NoIdInPrefix(u, a, m, r, j);
      } else {
        assert r[j] == ' ';
      }
    }
    SearchFromFirst(IdRe, r, k);
  }

  /** An `^id` match starts with `^`, which is no whitespace. */
  lemma IdStartsWithCaret(u: string, start: nat)
    requires start <= |u| && GroupAt(IdRe, u, start).Some?
    ensures start + 1 < |u| && u[start] == '^' && IsAlnum(u[start + 1])
    ensures LStrip(u[start..]) == u[start..]
  {
    assert u[start..][0] == '^';
  }

  /** The `^id` match of `u` at `start` is still one after any text `p`. */
  lemma IdAfterMarker(u: string, start: nat, p: string)
    requires start <= |u| && GroupAt(IdRe, u, start).Some?
    ensures GroupAt(IdRe, p + u[start..], |p|).Some?
  {
    IdStartsWithCaret(u, start);
    var r := p + u[start..];
    assert r[|p|] == u[start] && r[|p| + 1] == u[start + 1];
  }

  /** Without an `^id` in `u`, the result of `PlaceMarker` has none either. */
  lemma PlaceMarkerNoId(u: string, m: string)
    requires '^' !in m && |m| > 0 && !IsAlnum(m[0])
    requires SearchFrom(IdRe, u, 0).None?
    ensures SearchFrom(IdRe, PlaceMarker(u, m), 0).None?
  {
    var a := RStrip(u);
    var r := a + m;
    assert a == u[..|a|];
    forall j | 0 <= j <= |r| ensures GroupAt(IdRe, r, j).None? {
      if j < |r| {
        NoIdInPrefix(u, a, m, r + " ", j);
        assert (r + " ")[j] == r[j] && (j + 1 < |r| ==> (r + " ")[j + 1] == r[j + 1]);
      }
    }
  }

  /** The only marker of `a + m + b` is `m` when `a` and `b` hold no `✅`. */
  lemma MarkerBetween(a: string, m: string, b: string)
    requires |m| == 13 && CompletionAt(m, 0) && Check !in a && Check !in b
    ensures var r := a + m + b;
      r[|a|..|a| + 13] == m && (forall i :: CompletionAt(r, i) <==> i == |a|) && ChecksMarked(r)
  {
    var r := a + m + b;
    CompletionChars(m, 0);
    assert r[|a|..|a| + 13] == m;
    assert r[|a| + 3..|a| + 13] == m[3..13];
    assert forall p :: 0 <= p < |a| ==> r[p] == a[p];
    assert forall p :: |a| + 13 <= p < |r| ==> r[p] == b[p - |a| - 13];
    assert forall p :: |a| <= p < |a| + 13 ==> r[p] == m[p - |a|];
    assert forall p :: 0 <= p < |r| && r[p] == Check ==> p == |a| + 1;
    assert CompletionAt(r, |a|);
  }

  /** Unticking a line whose every `✅` belongs to a marker removes all of them. */
  lemma RewriteOpenNoMarker(line: string, today: Date)
    requires Valid(today) && ChecksMarked(line)
    ensures Check !in RewriteLine(line, false, today)
    ensures forall i :: !CompletionAt(RewriteLine(line, false, today), i)
  {
    RemoveCompletionsClearsChecks(line);
    NoCheckNoCompletion(RewriteLine(line, false, today));
  }

  // ---------------------------------------------------------------------
  // The checkbox survives the rewrite

  predicate IsBox(b: string) { b == OpenBox || b == DoneBox || b == DoneBoxUpper }

  /** `s` is whitespace up to `k`, then the checkbox `box`. */
  predicate BoxAt(s: string, k: nat, box: string) {
    IsBox(box) && k + 5 <= |s| && (forall i :: 0 <= i < k ==> IsSpace(s[i])) && s[k..k + 5] == box
  }

  lemma BoxChars(s: string, k: nat, box: string)
    requires BoxAt(s, k, box)
    ensures s[k] == '-' && s[k + 1] == ' ' && s[k + 2] == '[' && s[k + 4] == ']'
    ensures s[k + 3] == ' ' || s[k + 3] == 'x' || s[k + 3] == 'X'
    ensures s[k + 3] == ' ' <==> box == OpenBox
    ensures s[k + 3] == 'x' <==> box == DoneBox
  {
    assert s[k..k + 5][0] == s[k] && s[k..k + 5][1] == s[k + 1] && s[k..k + 5][2] == s[k + 2];
    assert s[k..k + 5][3] == s[k + 3] && s[k..k + 5][4] == s[k + 4];
  }

  /** A line of that shape strips to its checkbox. */
  lemma BoxLStrip(s: string, k: nat, box: string)
    requires BoxAt(s, k, box)
    ensures LStrip(s) == s[k..]
  {
    BoxChars(s, k, box);
    var m := |s| - |LStrip(s)|;
    assert !IsSpace(s[k]);
    assert m <= k;
    assert LStrip(s)[0] == s[m];
    assert !IsSpace(s[m]);
  }

  /** A line of that shape parses, ticked unless its box is `- [ ]`. */
  lemma BoxParse(s: string, k: nat, box: string, lineIndex: nat, section: string)
    requires BoxAt(s, k, box)
    ensures ParseLine(s, lineIndex, section).Some?
    ensures ParseLine(s, lineIndex, section).value.done <==> box != OpenBox
  {
    BoxLStrip(s, k, box);
    assert LStrip(s)[..5] == box;
  }

  /** Every task line has that shape. */
  lemma ParsedHasBox(s: string)
    requires StartsWith(LStrip(s), DoneBox) || StartsWith(LStrip(s), DoneBoxUpper) || StartsWith(LStrip(s), OpenBox)
    ensures var k := |s| - |LStrip(s)|; BoxAt(s, k, LStrip(s)[..5])
  {
    var k := |s| - |LStrip(s)|;
    assert s[k..k + 5] == LStrip(s)[..5];
  }

  /** No marker starts before the end of the checkbox. */
  lemma BoxNoCompletion(s: string, k: nat, box: string, i: nat)
    requires BoxAt(s, k, box) && i < k + 5
    ensures !CompletionAt(s, i)
  {
    BoxChars(s, k, box);
    assert i + 1 < k ==> IsSpace(s[i + 1]);
    assert i + 1 < k + 5 ==> s[i + 1] != Check;
    assert i == k + 4 ==> !IsSpace(s[i]);
  }

  lemma RemoveCompletionsBox(s: string, k: nat, box: string)
    requires BoxAt(s, k, box)
    ensures BoxAt(RemoveCompletions(s), k, box)
  {
    forall i | 0 <= i < k + 5 ensures !CompletionAt(s, i) {
      BoxNoCompletion(s, k, box, i);
    }
    RemoveCompletionsPrefix(s, k + 5);
    var r := RemoveCompletions(s);
    assert r[..k + 5] == s[..k + 5];
    assert r[k..k + 5] == s[k..k + 5];
    forall i | 0 <= i < k ensures IsSpace(r[i]) {
      assert r[i] == s[..k + 5][i];
    }
  }

  /** No box-shaped text starts inside the leading whitespace or the checkbox, except the checkbox. */
  lemma BoxOccurrences(s: string, k: nat, box: string, pat: string, j: nat)
    requires BoxAt(s, k, box) && IsBox(pat) && OccursAt(s, pat, j)
    ensures j == k || j >= k + 5
    ensures j == k ==> box == pat
  {
    BoxChars(s, k, box);
    assert s[j] == s[j..j + 5][0] == '-';
    assert forall i :: 0 <= i < k ==> s[i] != '-';
    assert j == k ==> s[k..k + 5] == s[j..j + 5];
  }

  /** Replacing the first box-shaped text changes the checkbox only when it is the checkbox. */
  lemma ReplaceFirstBox(s: string, k: nat, box: string, pat: string, rep: string)
    requires BoxAt(s, k, box) && IsBox(pat) && IsBox(rep)
    ensures BoxAt(ReplaceFirst(s, pat, rep), k, if box == pat then rep else box)
  {
    var r := ReplaceFirst(s, pat, rep);
    if box == pat {
      assert OccursAt(s, pat, k);
      var j := Find(s, pat).value;
      BoxOccurrences(s, k, box, pat, j);
      assert r == s[..k] + rep + s[k + 5..];
      assert r[k..k + 5] == rep;
      assert forall i :: 0 <= i < k ==> r[i] == s[i];
    } else {
      match Find(s, pat) {
        case None =>
        case Some(j) =>
          BoxOccurrences(s, k, box, pat, j);
          assert r == s[..j] + rep + s[j + 5..];
          KeepsPrefix(s, r, j, k + 5);
          assert r[k..k + 5] == s[k..k + 5];
      }
    }
  }

  /** A string that starts with `s[..j]` agrees with `s` below `n <= j`. */
  lemma KeepsPrefix(s: string, r: string, j: nat, n: nat)
    requires n <= j <= |s| && j <= |r| && r[..j] == s[..j]
    ensures r[..n] == s[..n]
    ensures forall i :: 0 <= i < n ==> r[i] == s[i]
  {
    assert r[..n] == r[..j][..n];
  }

  /** Right-stripping a prefix that reaches past the checkbox keeps the checkbox. */
  lemma RStripKeepsBox(u: string, k: nat, box: string, n: nat)
    requires BoxAt(u, k, box) && k + 5 <= n <= |u|
    ensures |RStrip(u[..n])| >= k + 5 && RStrip(u[..n])[..k + 5] == u[..k + 5]
  {
    BoxChars(u, k, box);
    var a := RStrip(u[..n]);
    assert u[..n][k + 4] == ']';
    assert !IsSpace(u[..n][k + 4]);
    assert |a| >= k + 5;
    assert a[..k + 5] == u[..n][..k + 5];
  }

  /** Placing the marker keeps the checkbox, which has no `^` and ends in `]`. */
  lemma PlaceMarkerBox(u: string, k: nat, box: string, marker: string)
    requires BoxAt(u, k, box)
    ensures BoxAt(PlaceMarker(u, marker), k, box)
  {
    PlaceMarkerAround(u, marker);
    BeforeMarkerKeepsBox(u, k, box);
    BoxBeforeJoin(u, BeforeMarker(u), marker, AfterMarker(u), k, box);
  }

  /** Text joined after a prefix that keeps the checkbox keeps it too. */
  lemma BoxBeforeJoin(u: string, a: string, m: string, b: string, k: nat, box: string)
    requires BoxAt(u, k, box) && |a| >= k + 5 && a[..k + 5] == u[..k + 5]
    ensures BoxAt(a + m + b, k, box)
  {
    assert a + m + b == a + (m + b);
    PrefixOfConcat(a, m + b, k + 5);
    BoxAtPrefix(u, a + m + b, k, box);
  }

  /** What precedes the marker still starts with the line's checkbox. */
  lemma BeforeMarkerKeepsBox(u: string, k: nat, box: string)
    requires BoxAt(u, k, box)
    ensures |BeforeMarker(u)| >= k + 5 && BeforeMarker(u)[..k + 5] == u[..k + 5]
  {
    match SearchFrom(IdRe, u, 0) {
      case Some(start) =>
        IdAfterBox(u, k, box, start);
        RStripKeepsBox(u, k, box, start);
      case None =>
        RStripKeepsBox(u, k, box, |u|);
        assert u[..|u|] == u;
    }
  }


  /** An `^id` starts after the checkbox, which holds no `^`. */
  lemma IdAfterBox(u: string, k: nat, box: string, start: nat)
    requires BoxAt(u, k, box) && start <= |u| && GroupAt(IdRe, u, start).Some?
    ensures start >= k + 5
  {
    BoxChars(u, k, box);
    assert u[start] == '^';
    assert forall i :: 0 <= i < k ==> u[i] != '^';
  }

  lemma PrefixOfConcat(a: string, b: string, n: nat)
    requires n <= |a|
    ensures (a + b)[..n] == a[..n]
  {
  }

  /** The checkbox lies in the first `k + 5` characters. */
  lemma BoxAtPrefix(u: string, r: string, k: nat, box: string)
    requires BoxAt(u, k, box) && |r| >= k + 5 && r[..k + 5] == u[..k + 5]
    ensures BoxAt(r, k, box)
  {
    assert forall i :: 0 <= i < k + 5 ==> r[i] == r[..k + 5][i] == u[..k + 5][i] == u[i];
    assert r[k..k + 5] == u[k..k + 5];
  }

  /** Rewriting a task line makes its parsed done flag the requested one. */
  lemma RewriteDoneFlag(line: string, done: bool, today: Date, lineIndex: nat, section: string)
    requires Valid(today)
    requires ParseLine(line, lineIndex, section).Some?
    ensures ParseLine(RewriteLine(line, done, today), lineIndex, section).Some?
    ensures ParseLine(RewriteLine(line, done, today), lineIndex, section).value.done == done
  {
    var k, box := CleanedBox(line, lineIndex, section);
    var cleaned := RemoveCompletions(line);
    if done {
      var box2 := TickBox(cleaned, k, box);
      var u := Tick(cleaned);
      PlaceMarkerBox(u, k, box2, DoneMarker(today));
      assert RewriteLine(line, true, today) == PlaceMarker(u, DoneMarker(today));
      BoxParse(PlaceMarker(u, DoneMarker(today)), k, box2, lineIndex, section);
    } else {
      var box2 := UntickBox(cleaned, k, box);
      assert RewriteLine(line, false, today) == Untick(cleaned);
      BoxParse(Untick(cleaned), k, box2, lineIndex, section);
    }
  }

  /** A task line keeps its checkbox once its completion markers are removed. */
  lemma CleanedBox(line: string, lineIndex: nat, section: string) returns (k: nat, box: string)
    requires ParseLine(line, lineIndex, section).Some?
    ensures BoxAt(RemoveCompletions(line), k, box)
  {
    k := |line| - |LStrip(line)|;
    box := LStrip(line)[..5];
    ParsedHasBox(line);
    RemoveCompletionsBox(line, k, box);
  }

  /** Ticking keeps the checkbox in place, now ticked. */
  lemma TickBox(cleaned: string, k: nat, box: string) returns (box2: string)
    requires BoxAt(cleaned, k, box)
    ensures BoxAt(Tick(cleaned), k, box2) && box2 != OpenBox
  {
    var box1 := if box == OpenBox then DoneBox else box;
    ReplaceFirstBox(cleaned, k, box, OpenBox, DoneBox);
    var v := ReplaceFirst(cleaned, OpenBox, DoneBox);
    box2 := if box1 == DoneBoxUpper then DoneBox else box1;
    ReplaceFirstBox(v, k, box1, DoneBoxUpper, DoneBox);
  }

  /** Unticking keeps the checkbox in place, now open. */
  lemma UntickBox(cleaned: string, k: nat, box: string) returns (box2: string)
    requires BoxAt(cleaned, k, box)
    ensures BoxAt(Untick(cleaned), k, box2) && box2 == OpenBox
  {
    var box1 := if box == DoneBox then OpenBox else box;
    ReplaceFirstBox(cleaned, k, box, DoneBox, OpenBox);
    var v := ReplaceFirst(cleaned, DoneBox, OpenBox);
    box2 := if box1 == DoneBoxUpper then OpenBox else box1;
    ReplaceFirstBox(v, k, box1, DoneBoxUpper, OpenBox);
  }
}
