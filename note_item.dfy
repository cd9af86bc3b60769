/** `formatDate` of a note row: the relative label shown for a note's
    `updatedAt`, from integer millisecond timestamps. */
module NoteItem {

  /** `1000 * 60 * 60 * 24`. */
  const MsPerDay := 86400000

  /** What `formatDate` returns. `LocaleDate` stands for `toLocaleDateString()`
      of the note's timestamp, whose text depends on the device locale. */
  datatype Label = Today | Yesterday | DaysAgo(n: int) | LocaleDate(date: int)

  /** `Math.ceil(a / d)` for a positive divisor: the least integer at or above `a / d`. */
  function CeilDiv(a: int, d: int): (q: int)
    requires d > 0
    ensures (q - 1) * d < a <= q * d
  {
    -((-a) / d)
  }

  /** `diffDays` for a note timestamp `date` seen at time `now`: the number
      of started days elapsed, zero or negative when `date` is not in the past. */
  function DiffDays(date: int, now: int): (d: int)
    ensures (d - 1) * MsPerDay < now - date <= d * MsPerDay
    ensures d <= 0 <==> now <= date
  {
    CeilDiv(now - date, MsPerDay)
  }

  /** A day count is never shown as 0 or 1 "days ago": those buckets are
      "Today" and "Yesterday", and the count is 2..6 or else -1 and below. */
  function FormatDate(date: int, now: int): (r: Label)
    ensures r.DaysAgo? ==> r.n <= -1 || 2 <= r.n <= 6
    ensures r.LocaleDate? ==> r.date == date && now - date > 7 * MsPerDay
  {
    var diffDays := DiffDays(date, now);
    if diffDays == 1 then Today
    else if diffDays == 2 then Yesterday
    else if diffDays <= 7 then DaysAgo(diffDays - 1)
    else LocaleDate(date)
  }

  /** Each label in terms of the elapsed milliseconds. */
  lemma FormatDateBuckets(date: int, now: int)
    ensures var r, elapsed := FormatDate(date, now), now - date;
      && (r == Today <==> 0 < elapsed <= MsPerDay)
      && (r == Yesterday <==> MsPerDay < elapsed <= 2 * MsPerDay)
      && (r.DaysAgo? && elapsed > 0 <==> 2 * MsPerDay < elapsed <= 7 * MsPerDay)
      && (r.DaysAgo? && elapsed > 0 ==> 2 <= r.n <= 6 && (r.n - 1) * MsPerDay < elapsed - MsPerDay <= r.n * MsPerDay)
      && (r.DaysAgo? <==> elapsed <= 0 || 2 * MsPerDay < elapsed <= 7 * MsPerDay)
      && (r.LocaleDate? <==> elapsed > 7 * MsPerDay)
      && (r.LocaleDate? ==> r.date == date)
  {
  }

  /** A timestamp equal to now, or in the future, lands in the "days ago"
      branch with a count of -1 or below: "now" itself reads "-1 days ago". */
  lemma NonPositiveElapsedIsNegativeDaysAgo(date: int, now: int)
    requires now <= date
    ensures FormatDate(date, now).DaysAgo?
    ensures FormatDate(date, now).n <= -1
    ensures date - now < MsPerDay ==> FormatDate(date, now) == DaysAgo(-1)
  {
  }

  predicate IsDigit(c: char) {
    '0' <= c <= '9'
  }

  function DigitValue(c: char): int
    requires IsDigit(c)
  {
    c as int - '0' as int
  }

  predicate AllDigits(s: string) {
    forall i :: 0 <= i < |s| ==> IsDigit(s[i])
  }

  /** The value of a run of decimal digits, most significant digit first. */
  function DigitsValue(s: string): nat
    requires AllDigits(s)
    decreases |s|
  {
    if s == [] then 0 else DigitsValue(s[..|s| - 1]) * 10 + DigitValue(s[|s| - 1])
  }

  /** The digits of a decimal numeral, after its optional minus sign. */
  function Magnitude(s: string): string {
    if |s| > 0 && s[0] == '-' then s[1..] else s
  }

  /** A canonical decimal numeral: an optional minus sign, then at least one
      digit, with no leading zero and no "-0". */
  predicate IsDecimal(s: string) {
    var ds := Magnitude(s);
    |ds| > 0 && AllDigits(ds) && (ds[0] == '0' ==> ds == "0") && (s[0] == '-' ==> ds != "0")
  }

  /** Reads a canonical decimal numeral back as an integer. */
  function DecimalValue(s: string): int
    requires IsDecimal(s)
  {
    if s[0] == '-' then -(DigitsValue(s[1..]) as int) else DigitsValue(s)
  }

  function Digit(d: int): (c: char)
    requires 0 <= d < 10
    ensures IsDigit(c) && DigitValue(c) == d
  {
    ('0' as int + d) as char
  }

  /** Decimal text of an integer, as template-literal interpolation prints it:
      the canonical numeral that reads back as `i`. */
  function IntToText(i: int): (s: string)
    ensures IsDecimal(s) && DecimalValue(s) == i
    ensures s[0] == '-' <==> i < 0
    decreases if i < 0 then 1 - i else i
  {
    if i < 0 then
      var u := IntToText(-i);
      assert ("-" + u)[1..] == u;
      "-" + u
    else if i < 10 then
      var s := [Digit(i)];
      assert s[..0] == [] && DigitsValue([]) == 0;
      assert DigitsValue(s) == DigitValue(s[0]);
      s
    else
      var t := IntToText(i / 10);
      var s := t + [Digit(i % 10)];
      assert s[..|s| - 1] == t;
      assert Magnitude(s) == s;
      s
  }

  /** The string the row shows; the locale-formatted date is given by `locale`.
      A "days ago" text is the count's decimal numeral followed by " days ago". */
  function Text(shown: Label, locale: string): (r: string)
    ensures shown == Today ==> r == "Today"
    ensures shown == Yesterday ==> r == "Yesterday"
    ensures shown.LocaleDate? ==> r == locale
    ensures shown.DaysAgo? ==>
      (r == IntToText(shown.n) + " days ago"
       && IsDecimal(r[..|r| - 9]) && DecimalValue(r[..|r| - 9]) == shown.n)
    ensures shown.DaysAgo? ==> |r| > 9 && r[|r| - 9..] == " days ago" && (r[0] == '-' <==> shown.n < 0)
  {
    match shown
    case Today => "Today"
    case Yesterday => "Yesterday"
    case DaysAgo(n) => IntToText(n) + " days ago"
    case LocaleDate(_) => locale
  }

  /** A note stamped with the current instant is shown as "-1 days ago". */
  lemma SameInstantText(t: int, locale: string)
    ensures Text(FormatDate(t, t), locale) == "-1 days ago"
  {
    NonPositiveElapsedIsNegativeDaysAgo(t, t);
    assert IntToText(1) == "1";
    assert IntToText(-1) == "-1";
  }
}
