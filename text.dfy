/** String helpers shared by the desktop view builder and the web line format:
    whitespace trimming, ASCII lower-casing, substring search and replacement. */
module Text {
  import opened Wrappers

  /** The six ASCII whitespace characters; `str.strip`, Rust's `trim` and the regex class `\s` remove these among others. */
  predicate IsSpace(c: char) {
    c == ' ' || c == '\t' || c == '\n' || c == '\r' || c == '\U{0B}' || c == '\U{0C}'
  }

  predicate IsDigit(c: char) { '0' <= c <= '9' }

  predicate IsAlnum(c: char) { 'A' <= c <= 'Z' || 'a' <= c <= 'z' || IsDigit(c) }

  function LowerChar(c: char): (r: char)
    ensures 'A' <= c <= 'Z' ==> r as int == c as int + 32
    ensures !('A' <= c <= 'Z') ==> r == c
  {
    if 'A' <= c <= 'Z' then (c as int + 32) as char else c
  }

  /** ASCII lower-casing of every character. */
  function Lower(s: string): (r: string)
    ensures |r| == |s| && forall i :: 0 <= i < |s| ==> r[i] == LowerChar(s[i])
  {
    seq(|s|, i requires 0 <= i < |s| => LowerChar(s[i]))
  }

  /** Drops leading whitespace (`str.lstrip()`). */
  function LStrip(s: string): (r: string)
    ensures |r| <= |s| && r == s[|s| - |r|..]
    ensures forall i :: 0 <= i < |s| - |r| ==> IsSpace(s[i])
    ensures r == [] || !IsSpace(r[0])
  {
    if |s| > 0 && IsSpace(s[0]) then LStrip(s[1..]) else s
  }

  /** Drops trailing whitespace (`str.rstrip()`). */
  function RStrip(s: string): (r: string)
    ensures |r| <= |s| && r == s[..|r|]
    ensures forall i :: |r| <= i < |s| ==> IsSpace(s[i])
    ensures r == [] || !IsSpace(r[|r| - 1])
  {
    if |s| > 0 && IsSpace(s[|s| - 1]) then RStrip(s[..|s| - 1]) else s
  }

  /** `r` is the slice of `s` from `k`, with only whitespace around it. */
  ghost predicate TrimAt(s: string, r: string, k: int) {
    0 <= k && k + |r| <= |s| && s[k..k + |r|] == r &&
    (forall i :: 0 <= i < k ==> IsSpace(s[i])) &&
    (forall i :: k + |r| <= i < |s| ==> IsSpace(s[i]))
  }

  /** `r` is `s` with its leading and trailing whitespace removed: a slice of
      `s` with only whitespace around it, which neither starts nor ends with whitespace. */
  ghost predicate TrimOf(s: string, r: string) {
    (r == [] || (!IsSpace(r[0]) && !IsSpace(r[|r| - 1]))) && exists k :: TrimAt(s, r, k)
  }

  /** Drops whitespace on both ends (`str.strip()`, Rust `trim`); `StripTrims` says what is left. */
  function Strip(s: string): (r: string)
    ensures r == [] || (!IsSpace(r[0]) && !IsSpace(r[|r| - 1]))
  {
    RStrip(LStrip(s))
  }

  /** `Strip(s)` is `s` with its leading and trailing whitespace removed, and nothing else is. */
  lemma StripTrims(s: string)
    ensures TrimOf(s, Strip(s))
    ensures forall r :: TrimOf(s, r) ==> r == Strip(s)
  {
    StripAt(s);
    forall r' | TrimOf(s, r') ensures r' == Strip(s) {
      TrimOfUnique(s, r', Strip(s));
    }
  }

  /** Where `Strip(s)` sits in `s`: after the whitespace `LStrip` drops. */
  lemma StripAt(s: string)
    ensures TrimAt(s, Strip(s), |s| - |LStrip(s)|)
  {
    var l := LStrip(s);
    var r := RStrip(l);
    var k := |s| - |l|;
    assert s[k..k + |r|] == r;
    assert forall i :: k + |r| <= i < |s| ==> s[i] == l[i - k];
  }

  /** There is only one way to trim `s`, so `TrimOf` determines the result of `Strip`. */
  lemma TrimOfUnique(s: string, r1: string, r2: string)
    requires TrimOf(s, r1) && TrimOf(s, r2)
    ensures r1 == r2
  {
    var k1 :| TrimAt(s, r1, k1);
    var k2 :| TrimAt(s, r2, k2);
    if r1 != [] {
      assert s[k1] == r1[0] && s[k1 + |r1| - 1] == r1[|r1| - 1];
    }
    if r2 != [] {
      assert s[k2] == r2[0] && s[k2 + |r2| - 1] == r2[|r2| - 1];
    }
  }

  predicate StartsWith(s: string, p: string) {
    |p| <= |s| && s[..|p|] == p
  }

  predicate OccursAt(s: string, p: string, i: int) {
    0 <= i && i + |p| <= |s| && s[i..i + |p|] == p
  }

  /** The first index at or after `from` where `p` occurs in `s`. */
  function FindFrom(s: string, p: string, from: nat): (r: Option<nat>)
    decreases |s| - from
    ensures r.Some? ==> from <= r.value && OccursAt(s, p, r.value)
    ensures r.Some? ==> forall j :: from <= j < r.value ==> !OccursAt(s, p, j)
    ensures r.None? ==> forall j :: from <= j ==> !OccursAt(s, p, j)
  {
    if from + |p| > |s| then None
    else if s[from..from + |p|] == p then Some(from)
    else FindFrom(s, p, from + 1)
  }

  /** `str.find`: the first occurrence of `p` in `s`. */
  function Find(s: string, p: string): Option<nat> {
    FindFrom(s, p, 0)
  }

  predicate Contains(s: string, p: string) {
    Find(s, p).Some?
  }

  lemma ContainsIff(s: string, p: string)
    ensures Contains(s, p) <==> exists i :: OccursAt(s, p, i)
  {
    if exists i :: OccursAt(s, p, i) {
      var i :| OccursAt(s, p, i);
      assert 0 <= i;
    }
  }

  /** `str.replace(pat, rep, 1)`: the first occurrence only. */
  function ReplaceFirst(s: string, pat: string, rep: string): (r: string)
    ensures Find(s, pat).None? ==> r == s
    ensures Find(s, pat).Some? ==>
              var k := Find(s, pat).value;
              r == s[..k] + rep + s[k + |pat|..]
  {
    match Find(s, pat)
    case None => s
    case Some(k) => s[..k] + rep + s[k + |pat|..]
  }

  /** Rust `str::replace`: every non-overlapping occurrence, left to right
      (`ReplaceAllFirst` says what happens at the first one). */
  function ReplaceAll(s: string, pat: string, rep: string): (r: string)
    requires |pat| > 0
    ensures !Contains(s, pat) ==> r == s
    decreases |s|
  {
    match Find(s, pat)
    case None => s
    case Some(k) => s[..k] + rep + ReplaceAll(s[k + |pat|..], pat, rep)
  }

  /** The text before the first occurrence is kept and `rep` takes the
      occurrence's place; when it is the only occurrence, the rest is kept too. */
  lemma ReplaceAllFirst(s: string, pat: string, rep: string)
    requires |pat| > 0 && Find(s, pat).Some?
    ensures var r, k := ReplaceAll(s, pat, rep), Find(s, pat).value;
      |r| >= k + |rep| && r[..k] == s[..k] && r[k..k + |rep|] == rep &&
      (!Contains(s[k + |pat|..], pat) ==> r == s[..k] + rep + s[k + |pat|..])
  {
    var k := Find(s, pat).value;
    var r := ReplaceAll(s, pat, rep);
    var tail := ReplaceAll(s[k + |pat|..], pat, rep);
    assert r == s[..k] + rep + tail;
    assert r[..k] == s[..k] && r[k..k + |rep|] == rep;
  }

  /** The first piece of `s.split(c)`: everything before the first `c`. */
  function PrefixBefore(s: string, c: char): (r: string)
    ensures |r| <= |s| && r == s[..|r|]
    ensures c !in r
    ensures |r| < |s| ==> s[|r|] == c
  {
    if |s| == 0 then []
    else if s[0] == c then []
    else [s[0]] + PrefixBefore(s[1..], c)
  }

  /** `str.lstrip(c)`: drops every leading `c`. */
  function LStripChar(s: string, c: char): (r: string)
    ensures |r| <= |s| && r == s[|s| - |r|..]
    ensures forall i :: 0 <= i < |s| - |r| ==> s[i] == c
    ensures r == [] || r[0] != c
  {
    if |s| > 0 && s[0] == c then LStripChar(s[1..], c) else s
  }

  /** `parts.join(sep)`. */
  function Join(parts: seq<string>, sep: string): string {
    if |parts| == 0 then []
    else if |parts| == 1 then parts[0]
    else parts[0] + sep + Join(parts[1..], sep)
  }
}
