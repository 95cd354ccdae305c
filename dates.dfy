/** Calendar dates as `chrono::NaiveDate` and Python's `datetime.date` use them:
    proleptic Gregorian, years 1 to 9999, compared chronologically, written
    `YYYY-MM-DD`. */
module Dates {
  import opened Wrappers
  import opened Text
  import opened Orderings

  datatype Date = Date(year: int, month: int, day: int)

  predicate IsLeap(y: int) {
    (y % 4 == 0 && y % 100 != 0) || y % 400 == 0
  }

  function DaysInMonth(y: int, m: int): (r: int)
    requires 1 <= m <= 12
    ensures 28 <= r <= 31
  {
    if m == 2 then (if IsLeap(y) then 29 else 28)
    else if m == 4 || m == 6 || m == 9 || m == 11 then 30
    else 31
  }

  /** A date Python's `datetime.date` can hold. */
  predicate Valid(d: Date) {
    1 <= d.year <= 9999 && 1 <= d.month <= 12 && 1 <= d.day <= DaysInMonth(d.year, d.month)
  }

  /** The date the "sometimes" shortcuts write: 9999-12-31. */
  const Sometimes: Date := Date(9999, 12, 31)

  /** Chronological comparison (`NaiveDate::cmp`, `date < date`). */
  function CmpDate(a: Date, b: Date): Ordering {
    Then(CmpInt(a.year, b.year), Then(CmpInt(a.month, b.month), CmpInt(a.day, b.day)))
  }

  predicate Before(a: Date, b: Date) {
    CmpDate(a, b) == Less
  }

  lemma CmpDateFacts(a: Date, b: Date, c: Date)
    ensures CmpDate(b, a) == Flip(CmpDate(a, b))
    ensures CmpDate(a, b) == Equal <==> a == b
    ensures CmpDate(a, b) != Greater && CmpDate(b, c) != Greater ==> CmpDate(a, c) != Greater
  {
  }

  lemma CmpDateTotalPreorder()
    ensures TotalPreorder(CmpDate)
  {
    forall a, b ensures CmpDate(b, a) == Flip(CmpDate(a, b)) {
      CmpDateFacts(a, b, a);
    }
    forall a, b, c | CmpDate(a, b) != Greater && CmpDate(b, c) != Greater
      ensures CmpDate(a, c) != Greater
    {
      CmpDateFacts(a, b, c);
    }
  }

  /** `today + timedelta(days=1)`; `None` where Python raises `OverflowError`. */
  function NextDay(d: Date): (r: Option<Date>)
    requires Valid(d)
    ensures r.None? <==> d == Sometimes
    ensures r.Some? ==> Valid(r.value) && Before(d, r.value)
    ensures r.Some? ==> forall e :: Valid(e) && Before(d, e) ==> !Before(e, r.value)
  {
    if d.day < DaysInMonth(d.year, d.month) then Some(Date(d.year, d.month, d.day + 1))
    else if d.month < 12 then Some(Date(d.year, d.month + 1, 1))
    else if d.year < 9999 then Some(Date(d.year + 1, 1, 1))
    else None
  }

  function DigitChar(n: int): (c: char)
    requires 0 <= n <= 9
    ensures IsDigit(c)
  {
    ('0' as int + n) as char
  }

  function DigitValue(c: char): int {
    c as int - '0' as int
  }

  /** Zero-padded decimal of exactly `width` digits. */
  function Pad(n: nat, width: nat): (s: string)
    requires n < Pow10(width)
    ensures |s| == width && forall i :: 0 <= i < width ==> IsDigit(s[i])
    ensures DigitsValue(s) == n
  {
    if width == 0 then []
    else Pad(n / 10, width - 1) + [DigitChar(n % 10)]
  }

  function Pow10(k: nat): nat {
    if k == 0 then 1 else 10 * Pow10(k - 1)
  }

  /** The number a run of decimal digits spells. */
  function DigitsValue(s: string): int {
    if |s| == 0 then 0 else 10 * DigitsValue(s[..|s| - 1]) + DigitValue(s[|s| - 1])
  }

  /** The shape `\d{4}-\d{2}-\d{2}` of the date regexes. */
  predicate DateShaped(s: string) {
    |s| == 10 && s[4] == '-' && s[7] == '-' &&
    forall i :: 0 <= i < 10 && i != 4 && i != 7 ==> IsDigit(s[i])
  }

  /** `d.strftime("%Y-%m-%d")`, also `NaiveDate`'s `to_string`. */
  function Format(d: Date): (s: string)
    requires Valid(d)
    ensures DateShaped(s)
  {
    Pad(d.year, 4) + "-" + Pad(d.month, 2) + "-" + Pad(d.day, 2)
  }

  /** `datetime.strptime(s, "%Y-%m-%d").date()`; `None` where it raises `ValueError`. */
  function Parse(s: string): (r: Option<Date>)
    ensures r.Some? ==> Valid(r.value)
  {
    if !DateShaped(s) then None
    else
      var d := Date(DigitsValue(s[..4]), DigitsValue(s[5..7]), DigitsValue(s[8..]));
      if Valid(d) then Some(d) else None
  }

  lemma {:induction false} DigitsValueOfDigits(s: string)
    requires forall i :: 0 <= i < |s| ==> IsDigit(s[i])
    ensures 0 <= DigitsValue(s) < Pow10(|s|)
  {
    if |s| > 0 {
      DigitsValueOfDigits(s[..|s| - 1]);
    }
  }

  lemma {:induction false} PadOfDigits(s: string)
    requires forall i :: 0 <= i < |s| ==> IsDigit(s[i])
    ensures DigitsValue(s) >= 0 && DigitsValue(s) < Pow10(|s|)
    ensures Pad(DigitsValue(s), |s|) == s
  {
    DigitsValueOfDigits(s);
    if |s| > 0 {
      var init := s[..|s| - 1];
      PadOfDigits(init);
      var n := DigitsValue(s);
      assert n == 10 * DigitsValue(init) + DigitValue(s[|s| - 1]);
      assert n / 10 == DigitsValue(init) && n % 10 == DigitValue(s[|s| - 1]);
      assert s == init + [s[|s| - 1]];
    }
  }

  /** Reading back what was written gives the same date. */
  lemma FormatParse(d: Date)
    requires Valid(d)
    ensures Parse(Format(d)) == Some(d)
  {
    var s := Format(d);
    assert s[..4] == Pad(d.year, 4);
    assert s[5..7] == Pad(d.month, 2);
    assert s[8..] == Pad(d.day, 2);
  }

  /** Every string that parses is exactly the formatting of what it parses to. */
  lemma ParseFormat(s: string)
    requires Parse(s).Some?
    ensures Format(Parse(s).value) == s
  {
    var d := Parse(s).value;
    ParsedYear(s);
    ParsedMonth(s);
    ParsedDay(s);
    FormatFields(d, s);
  }

  lemma ParsedYear(s: string)
    requires Parse(s).Some?
    ensures DateShaped(s) && Pad(Parse(s).value.year, 4) == s[0..4]
  {
    ParsedFields(s);
    FieldPad(s, 0, 4, 4, Parse(s).value.year);
  }

  lemma ParsedMonth(s: string)
    requires Parse(s).Some?
    ensures Pad(Parse(s).value.month, 2) == s[5..7]
  {
    ParsedFields(s);
    FieldPad(s, 5, 7, 2, Parse(s).value.month);
  }

  lemma ParsedDay(s: string)
    requires Parse(s).Some?
    ensures Pad(Parse(s).value.day, 2) == s[8..10]
  {
    ParsedFields(s);
    FieldPad(s, 8, 10, 2, Parse(s).value.day);
  }

  lemma ParsedFields(s: string)
    requires Parse(s).Some?
    ensures DateShaped(s)
    ensures Parse(s).value == Date(DigitsValue(s[0..4]), DigitsValue(s[5..7]), DigitsValue(s[8..10]))
  {
    assert s[8..] == s[8..10] && s[..4] == s[0..4];
  }

  /** A field read from a run of digits is written back by `Pad` as it stands. */
  lemma FieldPad(s: string, lo: nat, hi: nat, width: nat, v: int)
    requires lo <= hi <= |s| && hi - lo == width && forall i :: lo <= i < hi ==> IsDigit(s[i])
    requires v == DigitsValue(s[lo..hi])
    ensures 0 <= v < Pow10(width) && Pad(v, width) == s[lo..hi]
  {
    forall i | 0 <= i < width ensures IsDigit(s[lo..hi][i]) {
      assert s[lo..hi][i] == s[lo + i];
    }
    PadOfDigits(s[lo..hi]);
  }

  /** A date whose padded fields are the pieces of `s` is formatted as `s`. */
  lemma FormatFields(d: Date, s: string)
    requires Valid(d) && DateShaped(s)
    requires Pad(d.year, 4) == s[0..4] && Pad(d.month, 2) == s[5..7] && Pad(d.day, 2) == s[8..10]
    ensures Format(d) == s
  {
    assert s[4] == '-' && s[7] == '-';
    assert s == s[0..4] + "-" + s[5..7] + "-" + s[8..10];
  }
}
