/** Python `datetime` values as the expense routes use them: validity, order,
    `strftime("%Y-%m-%d")` and `datetime.strptime(s, "%Y-%m-%d")`. */
module Dates {
  import opened Results
  import opened Text

  const MicrosPerDay: int := 86_400_000_000

  /** A naive `datetime`: a calendar date and the microseconds since its midnight. */
  datatype DateTime = DateTime(year: int, month: int, day: int, micros: int)

  predicate IsLeapYear(y: int) {
    y % 4 == 0 && (y % 100 != 0 || y % 400 == 0)
  }

  function DaysInMonth(y: int, m: int): int
    requires 1 <= m <= 12
  {
    if m == 2 then (if IsLeapYear(y) then 29 else 28)
    else if m == 4 || m == 6 || m == 9 || m == 11 then 30
    else 31
  }

  /** The dates `datetime` accepts: years 1 to 9999 of the proleptic Gregorian calendar. */
  predicate ValidDate(y: int, m: int, d: int) {
    1 <= y <= 9999 && 1 <= m <= 12 && 1 <= d <= DaysInMonth(y, m)
  }

  predicate Valid(t: DateTime) {
    ValidDate(t.year, t.month, t.day) && 0 <= t.micros < MicrosPerDay
  }

  /** Midnight at the start of `t`'s day. */
  function StartOfDay(t: DateTime): DateTime {
    DateTime(t.year, t.month, t.day, 0)
  }

  /** `a <= b` between two datetimes: chronological order. */
  predicate AtOrBefore(a: DateTime, b: DateTime) {
    || a.year < b.year
    || (a.year == b.year && a.month < b.month)
    || (a.year == b.year && a.month == b.month && a.day < b.day)
    || (a.year == b.year && a.month == b.month && a.day == b.day && a.micros <= b.micros)
  }

  /** `t.strftime("%Y-%m-%d")`, with the year unpadded as CPython before 3.13 renders it
      through glibc (3.13 pads it to four digits; the two agree from year 1000 on). */
  function FormatYmd(t: DateTime): string
    requires Valid(t)
  {
    Decimal(t.year as nat) + "-" + Pad2(t.month as nat) + "-" + Pad2(t.day as nat)
  }

  /** The length of the `%m` field at the front of `s` when the literal '-' follows it:
      the first of the alternatives `1[0-2]`, `0[1-9]`, `[1-9]` that lets '-' follow. */
  function MonthFieldLength(s: string): (r: Option<nat>)
    ensures r.Some? ==> 1 <= r.value <= 2 && r.value + 1 <= |s| && AllDigits(s[..r.value]) && s[r.value] == '-'
  {
    if |s| >= 3 && s[0] == '1' && '0' <= s[1] <= '2' && s[2] == '-' then Some(2)
    else if |s| >= 3 && s[0] == '0' && '1' <= s[1] <= '9' && s[2] == '-' then Some(2)
    else if |s| >= 2 && '1' <= s[0] <= '9' && s[1] == '-' then Some(1)
    else None
  }

  /** The length of the `%d` field at the front of `s`: the first of the alternatives
      `3[01]`, `[12]\d`, `0[1-9]`, `[1-9]`, ` [1-9]` that matches. */
  function DayFieldLength(s: string): (r: Option<nat>)
    ensures r.Some? ==> 1 <= r.value <= |s| && r.value <= 2
  {
    if |s| >= 2 && s[0] == '3' && (s[1] == '0' || s[1] == '1') then Some(2)
    else if |s| >= 2 && (s[0] == '1' || s[0] == '2') && IsDigit(s[1]) then Some(2)
    else if |s| >= 2 && s[0] == '0' && '1' <= s[1] <= '9' then Some(2)
    else if |s| >= 1 && '1' <= s[0] <= '9' then Some(1)
    else if |s| >= 2 && s[0] == ' ' && '1' <= s[1] <= '9' then Some(2)
    else None
  }

  /** `int(s)` of a whole `%d` field, which may start with one space. */
  function DayValue(s: string): nat
    requires DayFieldLength(s) == Some(|s|)
  {
    if s[0] == ' ' then DigitValue(s[1]) else DecimalValue(s)
  }

  /** `datetime.strptime(s, "%Y-%m-%d")`, or None where it raises ValueError: a
      four-digit year, '-', a month, '-', a day, nothing after it, and a date that
      exists. The result is midnight of that date. */
  function ParseYmd(s: string): (r: Option<DateTime>)
    ensures r.Some? ==> Valid(r.value) && r.value.micros == 0
  {
    if |s| < 5 || !AllDigits(s[..4]) || s[4] != '-' then None
    else
      var rest := s[5..];
      match MonthFieldLength(rest)
      case None => None
      case Some(ml) =>
        var dayText := rest[ml + 1..];
        match DayFieldLength(dayText)
        case None => None
        case Some(dl) =>
          if dl != |dayText| then None  // "unconverted data remains"
          else
            var year := DecimalValue(s[..4]);
            var month := DecimalValue(rest[..ml]);
            var day := DayValue(dayText);
            if ValidDate(year, month, day) then Some(DateTime(year, month, day, 0)) else None
  }

  lemma Pad2Digits(n: nat)
    requires n < 100
    ensures Pad2(n) == [DigitChar(n / 10), DigitChar(n % 10)]
  {
    if n >= 10 {
      assert Decimal(n / 10) == [DigitChar(n / 10)];
    }
  }

  /** The `%m-%d` part `strftime` writes is read back field by field: a two-character
      month, '-', and a two-character day. */
  lemma MonthDayFields(month: nat, day: nat)
    requires 1 <= month <= 12 && 1 <= day <= 31
    ensures var rest := Pad2(month) + "-" + Pad2(day);
      && MonthFieldLength(rest) == Some(2)
      && rest[..2] == Pad2(month)
      && rest[3..] == Pad2(day)
      && DayFieldLength(Pad2(day)) == Some(2)
  {
    Pad2Digits(month);
    Pad2Digits(day);
    var rest := Pad2(month) + "-" + Pad2(day);
    assert rest[..2] == Pad2(month);
    assert rest[3..] == Pad2(day);
  }

  /** A date `strftime("%Y-%m-%d")` renders with a four-digit year is read back by
      `strptime(..., "%Y-%m-%d")` as midnight of the same day. */
  lemma ParseFormatRoundTrip(t: DateTime)
    requires Valid(t) && t.year >= 1000
    ensures ParseYmd(FormatYmd(t)) == Some(StartOfDay(t))
  {
    var y, m, d := Decimal(t.year as nat), Pad2(t.month as nat), Pad2(t.day as nat);
    var s := FormatYmd(t);
    DecimalOfFourDigits(t.year as nat);
    DecimalRoundTrip(t.year as nat);
    MonthDayFields(t.month as nat, t.day as nat);
    Pad2RoundTrip(t.month as nat);
    Pad2RoundTrip(t.day as nat);
    assert s[..4] == y;
    assert s[5..] == m + "-" + d;
  }
}
