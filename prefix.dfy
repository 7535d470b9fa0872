/**
 * The `YYYY-MM` prefix of `get_year_month_prefix`: the mtime, or the current
 * time when the lookup raises an exception the copy catches, formatted with
 * `strftime("%Y-%m")`. The conversion of a float timestamp to local calendar
 * time is not modelled: a lookup hands over the calendar year and month.
 */
module YearMonthPrefix {

  import opened Wrappers

  type Month = m: int | 1 <= m <= 12 witness 1

  /** A local calendar time, reduced to what `%Y-%m` shows. */
  datatype CalendarTime = CalendarTime(year: int, month: Month)

  /** `datetime` represents the years 1 to 9999 (`MINYEAR`, `MAXYEAR`). */
  predicate InDatetimeRange(t: CalendarTime)
  {
    1 <= t.year <= 9999
  }

  type YearMonth = t: CalendarTime | InDatetimeRange(t) witness CalendarTime(1970, 1)

  predicate IsDigit(c: char) { '0' <= c <= '9' }

  /** The prefix shape `^[0-9]{4}-(0[1-9]|1[0-2])$`. */
  predicate MatchesPrefixPattern(s: string)
  {
    && |s| == 7
    && IsDigit(s[0]) && IsDigit(s[1]) && IsDigit(s[2]) && IsDigit(s[3])
    && s[4] == '-'
    && ((s[5] == '0' && '1' <= s[6] <= '9') || (s[5] == '1' && '0' <= s[6] <= '2'))
  }

  function Digit(d: int): (c: char)
    requires 0 <= d <= 9
    ensures IsDigit(c) && c as int - '0' as int == d
  {
    ('0' as int + d) as char
  }

  function DigitValue(c: char): (d: int)
    requires IsDigit(c)
    ensures 0 <= d <= 9 && Digit(d) == c
  {
    c as int - '0' as int
  }

  /** `strftime("%Y-%m")`: the year on four digits, a hyphen, the month on two. */
  function Format(t: YearMonth): (s: string)
    ensures MatchesPrefixPattern(s)
    ensures |s| == 7
  {
    var y := t.year;
    [Digit(y / 10 / 10 / 10), Digit(y / 10 / 10 % 10), Digit(y / 10 % 10), Digit(y % 10),
     '-', Digit(t.month / 10), Digit(t.month % 10)]
  }

  /** The inverse of `Format`: reads a prefix back, or `None` when `s` is not one. */
  function Parse(s: string): (r: Option<YearMonth>)
    ensures r.Some? ==> MatchesPrefixPattern(s)
  {
    if MatchesPrefixPattern(s) then
      var year := 1000 * DigitValue(s[0]) + 100 * DigitValue(s[1]) + 10 * DigitValue(s[2]) + DigitValue(s[3]);
      var month := 10 * DigitValue(s[5]) + DigitValue(s[6]);
      if 1 <= year then Some(CalendarTime(year, month)) else None
    else None
  }

  /** Formatting loses nothing: the prefix names exactly the year and month it came from. */
  lemma FormatThenParse(t: YearMonth)
    ensures Parse(Format(t)) == Some(t)
  {
    var s := Format(t);
    var y := t.year;
    Decimal(y);
    Decimal(y / 10);
    Decimal(y / 10 / 10);
    Decimal(t.month);
  }

  /** Every string `Parse` accepts is the prefix of the time it reads. */
  lemma ParseThenFormat(s: string)
    requires Parse(s).Some?
    ensures Format(Parse(s).value) == s
  {
    var t := Parse(s).value;
    var d0, d1, d2, d3 := DigitValue(s[0]), DigitValue(s[1]), DigitValue(s[2]), DigitValue(s[3]);
    var y := t.year;
    assert y == 10 * (10 * (10 * d0 + d1) + d2) + d3;
    Composed(10 * (10 * d0 + d1) + d2, d3);
    Composed(10 * d0 + d1, d2);
    Composed(d0, d1);
    Composed(DigitValue(s[5]), DigitValue(s[6]));
    var f := Format(t);
    assert f[0] == s[0] && f[1] == s[1] && f[2] == s[2] && f[3] == s[3];
    assert f[5] == s[5] && f[6] == s[6];
  }

  lemma Decimal(n: int)
    ensures n == 10 * (n / 10) + n % 10 && 0 <= n % 10 < 10
  {
  }

  lemma Composed(q: int, r: int)
    requires 0 <= r < 10
    ensures (10 * q + r) / 10 == q && (10 * q + r) % 10 == r
  {
  }

  /** Which exceptions a copy's `try` around `os.path.getmtime` catches. */
  datatype CatchPolicy = CatchOsError | CatchAnyException

  /** The class of an exception raised by the mtime lookup. */
  datatype ExceptionKind = OsErrorKind | OtherExceptionKind

  /** `except OSError` catches only an `OSError`; `except Exception` catches both kinds. */
  function Catches(policy: CatchPolicy, kind: ExceptionKind): (caught: bool)
    ensures kind == OsErrorKind ==> caught
    ensures policy == CatchOsError ==> (caught <==> kind == OsErrorKind)
    ensures policy == CatchAnyException ==> caught
  {
    policy == CatchAnyException || kind == OsErrorKind
  }

  /** What `os.path.getmtime` gives: a time, or an exception. */
  datatype MtimeLookup = Stat(time: CalendarTime) | StatRaised(kind: ExceptionKind)

  /** Why no prefix could be computed: the exception leaves `get_year_month_prefix`. */
  datatype PrefixError =
    | LookupRaised(kind: ExceptionKind)  // not caught by this copy's `except`
    | TimestampOutOfRange(year: int)     // `datetime.fromtimestamp` rejects it

  /** The prefix, and whether the current time stood in for the mtime (a warning is logged). */
  datatype Resolution = Resolved(prefix: string, fellBack: bool) | Unresolved(error: PrefixError)

  /** `get_year_month_prefix(path)`, given the lookup's answer and the current time. */
  function ResolvePrefix(lookup: MtimeLookup, now: YearMonth, policy: CatchPolicy): (r: Resolution)
    ensures r.Resolved? <==>
      (lookup.Stat? && InDatetimeRange(lookup.time)) || (lookup.StatRaised? && Catches(policy, lookup.kind))
    ensures r.Resolved? ==> MatchesPrefixPattern(r.prefix) && (r.fellBack <==> lookup.StatRaised?)
  {
    match lookup
    case Stat(t) =>
      if InDatetimeRange(t) then Resolved(Format(t), false)
      else Unresolved(TimestampOutOfRange(t.year))
    case StatRaised(kind) =>
      if Catches(policy, kind) then Resolved(Format(now), true)
      else Unresolved(LookupRaised(kind))
  }

  /** A resolved prefix reads back as the mtime, or as the current time when it fell back. */
  lemma ResolvedPrefixNamesTimeUsed(lookup: MtimeLookup, now: YearMonth, policy: CatchPolicy)
    requires ResolvePrefix(lookup, now, policy).Resolved?
    ensures var r := ResolvePrefix(lookup, now, policy);
      Parse(r.prefix) == Some(if r.fellBack then now else lookup.time)
  {
    if lookup.Stat? {
      FormatThenParse(lookup.time);
    } else {
      FormatThenParse(now);
    }
  }

  /** A copy that catches every exception never fails on the lookup itself. */
  lemma CatchAllNeverPropagatesLookup(lookup: MtimeLookup, now: YearMonth)
    ensures ResolvePrefix(lookup, now, CatchAnyException).Unresolved? ==>
      ResolvePrefix(lookup, now, CatchAnyException).error.TimestampOutOfRange?
  {
  }

  /** The two policies differ only on an exception that is not an `OSError`. */
  lemma PoliciesAgreeOnOsErrors(lookup: MtimeLookup, now: YearMonth)
    requires lookup.StatRaised? ==> lookup.kind == OsErrorKind
    ensures ResolvePrefix(lookup, now, CatchOsError) == ResolvePrefix(lookup, now, CatchAnyException)
  {
  }
}
