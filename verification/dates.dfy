/** Calendar dates as the bot handles them: proleptic Gregorian dates counted as
    day ordinals (Python's `date.toordinal`), and the `DD.MM.YYYY` text the payment
    forms accept (`datetime.strptime(text, "%d.%m.%Y")`). */
module Dates {
  import opened Wrappers
  import opened Text

  datatype Date = Date(year: int, month: int, day: int)

  predicate IsLeap(y: int) {
    y % 4 == 0 && (y % 100 != 0 || y % 400 == 0)
  }

  function DaysInMonth(y: int, m: int): (n: int)
    requires 1 <= m <= 12
    ensures 28 <= n <= 31
  {
    if m == 2 then (if IsLeap(y) then 29 else 28)
    else if m == 4 || m == 6 || m == 9 || m == 11 then 30
    else 31
  }

  /** The dates `datetime` can represent. */
  predicate Valid(dt: Date) {
    1 <= dt.year <= 9999 && 1 <= dt.month <= 12 && 1 <= dt.day <= DaysInMonth(dt.year, dt.month)
  }

  /** Days in the years before `y`. */
  function DaysBeforeYear(y: int): int
    requires y >= 1
  {
    var p := y - 1;
    365 * p + p / 4 - p / 100 + p / 400
  }

  /** Days in the months of year `y` before month `m`. */
  function DaysBeforeMonth(y: int, m: int): int
    requires 1 <= m <= 12
  {
    var table := [0, 31, 59, 90, 120, 151, 181, 212, 243, 273, 304, 334];
    table[m - 1] + (if m > 2 && IsLeap(y) then 1 else 0)
  }

  /** Day number of a date; 1 January of year 1 is day 1. */
  function Ordinal(dt: Date): int
    requires Valid(dt)
  {
    DaysBeforeYear(dt.year) + DaysBeforeMonth(dt.year, dt.month) + dt.day
  }

  /** `(due - today).days` */
  function DaysLeft(due: Date, today: Date): int
    requires Valid(due) && Valid(today)
  {
    Ordinal(due) - Ordinal(today)
  }

  /** The last day `datetime` can represent. */
  const MaxDate := Date(9999, 12, 31)

  /** The ordinal of 31.12.9999, `date.max.toordinal()`. */
  const MaxOrdinal := 3652059

  lemma MaxOrdinalOfMaxDate()
    ensures Valid(MaxDate) && Ordinal(MaxDate) == MaxOrdinal
  {
  }

  /** The calendar successor of a date. */
  function NextDay(dt: Date): (r: Date)
    requires Valid(dt) && dt != MaxDate
    ensures Valid(r)
  {
    if dt.day < DaysInMonth(dt.year, dt.month) then Date(dt.year, dt.month, dt.day + 1)
    else if dt.month < 12 then Date(dt.year, dt.month + 1, 1)
    else Date(dt.year + 1, 1, 1)
  }

  /** The calendar predecessor of a date. */
  function PrevDay(dt: Date): (r: Date)
    requires Valid(dt) && dt != Date(1, 1, 1)
    ensures Valid(r) && r != MaxDate
  {
    if dt.day > 1 then Date(dt.year, dt.month, dt.day - 1)
    else if dt.month > 1 then Date(dt.year, dt.month - 1, DaysInMonth(dt.year, dt.month - 1))
    else Date(dt.year - 1, 12, 31)
  }

  lemma DaysBeforeNextMonth(y: int, m: int)
    requires 1 <= m < 12
    ensures DaysBeforeMonth(y, m + 1) == DaysBeforeMonth(y, m) + DaysInMonth(y, m)
  {
  }

  lemma DaysBeforeNextYear(y: int)
    requires y >= 1
    ensures DaysBeforeYear(y + 1) == DaysBeforeYear(y) + DaysBeforeMonth(y, 12) + DaysInMonth(y, 12)
  {
    var p := y - 1;
    assert (p + 1) / 4 == p / 4 + (if y % 4 == 0 then 1 else 0);
    assert (p + 1) / 100 == p / 100 + (if y % 100 == 0 then 1 else 0);
    assert (p + 1) / 400 == p / 400 + (if y % 400 == 0 then 1 else 0);
  }

  /** Ordinals count days: the next calendar day has the next ordinal, so the
      difference of two ordinals is the `(due - today).days` the handlers compute. */
  lemma OrdinalNextDay(dt: Date)
    requires Valid(dt) && dt != MaxDate
    ensures Ordinal(NextDay(dt)) == Ordinal(dt) + 1
  {
    if dt.day < DaysInMonth(dt.year, dt.month) {
    } else if dt.month < 12 {
      DaysBeforeNextMonth(dt.year, dt.month);
    } else {
      DaysBeforeNextYear(dt.year);
    }
  }

  lemma OrdinalPrevDay(dt: Date)
    requires Valid(dt) && dt != Date(1, 1, 1)
    ensures Ordinal(PrevDay(dt)) == Ordinal(dt) - 1
  {
    var p := PrevDay(dt);
    assert NextDay(p) == dt;
    OrdinalNextDay(p);
  }

  /** `date + timedelta(days=n)`: the date `n` days later (earlier when `n` is
      negative), or `None` for the `OverflowError` raised past 31.12.9999 or
      before 1.1.1. */
  function AddDays(dt: Date, n: int): (r: Option<Date>)
    requires Valid(dt)
    ensures r.Some? ==> Valid(r.value) && Ordinal(r.value) == Ordinal(dt) + n
    ensures r.None? ==> Ordinal(dt) + n > MaxOrdinal || Ordinal(dt) + n < 1
    decreases if n >= 0 then n else -n
  {
    if n == 0 then Some(dt)
    else if n > 0 then
      if dt == MaxDate then
        MaxOrdinalOfMaxDate();
        None
      else
        var next := NextDay(dt);
        OrdinalNextDay(dt);
        AddDays(next, n - 1)
    else
      if dt == Date(1, 1, 1) then
        assert Ordinal(dt) == 1;
        None
      else
        var prev := PrevDay(dt);
        OrdinalPrevDay(dt);
        AddDays(prev, n + 1)
  }

  lemma OrdinalPositive(dt: Date)
    requires Valid(dt)
    ensures Ordinal(dt) >= 1
  {
    var p := dt.year - 1;
    assert p / 4 >= p / 100;
  }

  /** Moving forward stays within the calendar up to 31.12.9999. */
  lemma AddDaysInRange(dt: Date, n: nat)
    requires Valid(dt) && Ordinal(dt) + n <= MaxOrdinal
    ensures AddDays(dt, n).Some?
  {
    OrdinalPositive(dt);
  }

  // ---------------------------------------------------------------------------
  // Date text

  /** One numeric field of the `%d.%m.%Y` pattern: between `minLen` and `maxLen`
      ASCII digits whose value lies in `lo..hi`. */
  function Field(s: string, minLen: nat, maxLen: nat, lo: int, hi: int): (r: Option<int>)
    ensures r.Some? ==> lo <= r.value <= hi
  {
    if minLen <= |s| <= maxLen && IsDigits(s) && lo <= DigitsValue(s) <= hi
    then Some(DigitsValue(s) as int) else None
  }

  /** The date with the given fields, when they name a real calendar day. */
  function MakeDate(d: Option<int>, m: Option<int>, y: Option<int>): (r: Option<Date>)
    ensures r.Some? ==> Valid(r.value)
  {
    match (d, m, y)
    case (Some(d), Some(m), Some(y)) =>
      if 1 <= m <= 12 && 1 <= y <= 9999 && 1 <= d <= DaysInMonth(y, m) then Some(Date(y, m, d)) else None
    case _ => None
  }

  /** `datetime.strptime(text, "%d.%m.%Y")`: a one- or two-digit day 1..31, a one-
      or two-digit month 1..12 and a four-digit year, separated by dots, naming a
      real calendar day. `None` is the `ValueError` the handlers catch. */
  function ParseDayMonthYear(text: string): (r: Option<Date>)
    ensures r.Some? ==> Valid(r.value)
  {
    var parts := SplitOn(text, ".");
    if |parts| != 3 then None
    else MakeDate(Field(parts[0], 1, 2, 1, 31), Field(parts[1], 1, 2, 1, 12), Field(parts[2], 4, 4, 0, 9999))
  }

  /** `datetime.strptime(text, "%Y-%m-%d")`, the form due dates are stored in. */
  function ParseIsoDate(text: string): (r: Option<Date>)
    ensures r.Some? ==> Valid(r.value)
  {
    var parts := SplitOn(text, "-");
    if |parts| != 3 then None
    else MakeDate(Field(parts[2], 1, 2, 1, 31), Field(parts[1], 1, 2, 1, 12), Field(parts[0], 4, 4, 0, 9999))
  }

  /** `n` as exactly `width` digits with leading zeros (`%02d`, `%04d`). */
  function Padded(n: nat, width: nat): (r: string)
    ensures |r| == width
    ensures forall i :: 0 <= i < |r| ==> IsDigit(r[i])
    decreases width
  {
    if width == 0 then "" else Padded(n / 10, width - 1) + [DigitChar(n % 10)]
  }

  lemma {:induction false} PaddedValue(n: nat, width: nat)
    requires n < Pow10(width)
    ensures DigitsValue(Padded(n, width)) == n
    decreases width
  {
    if width > 0 {
      var r := Padded(n, width);
      assert r[..|r| - 1] == Padded(n / 10, width - 1);
      assert Pow10(width) == 10 * Pow10(width - 1);
      PaddedValue(n / 10, width - 1);
    }
  }

  /** `date.strftime("%d.%m.%Y")` */
  function FormatDayMonthYear(dt: Date): string
    requires Valid(dt)
  {
    Padded(dt.day, 2) + "." + Padded(dt.month, 2) + "." + Padded(dt.year, 4)
  }

  lemma FieldOfPadded(n: nat, width: nat, minLen: nat, maxLen: nat, lo: int, hi: int)
    requires 0 < width && n < Pow10(width) && minLen <= width <= maxLen && lo <= n <= hi
    ensures Field(Padded(n, width), minLen, maxLen, lo, hi) == Some(n)
  {
    PaddedValue(n, width);
  }

  /** `date.strftime("%Y-%m-%d")` */
  function FormatIsoDate(dt: Date): string
    requires Valid(dt)
  {
    Padded(dt.year, 4) + "-" + Padded(dt.month, 2) + "-" + Padded(dt.day, 2)
  }

  lemma SplitThree(a: string, b: string, c: string, sep: char)
    requires sep !in a && sep !in b && sep !in c
    ensures SplitOn(a + [sep] + b + [sep] + c, [sep]) == [a, b, c]
  {
    assert a + [sep] + b + [sep] + c == a + [sep] + (b + [sep] + c);
    SplitOnPrefix(a, [sep], b + [sep] + c);
    SplitOnPrefix(b, [sep], c);
    SplitOnNone(c, [sep]);
  }

  lemma PaddedHasNoSeparator(n: nat, width: nat, sep: char)
    requires !IsDigit(sep)
    ensures sep !in Padded(n, width)
  {
    var r := Padded(n, width);
    assert forall i :: 0 <= i < |r| ==> r[i] != sep;
  }

  /** The fields of a valid date, printed with their widths, read back. */
  lemma PaddedFields(dt: Date)
    requires Valid(dt)
    ensures Field(Padded(dt.day, 2), 1, 2, 1, 31) == Some(dt.day)
    ensures Field(Padded(dt.month, 2), 1, 2, 1, 12) == Some(dt.month)
    ensures Field(Padded(dt.year, 4), 4, 4, 0, 9999) == Some(dt.year)
  {
    assert Pow10(2) == 100;
    assert Pow10(4) == 10000;
    FieldOfPadded(dt.day, 2, 1, 2, 1, 31);
    FieldOfPadded(dt.month, 2, 1, 2, 1, 12);
    FieldOfPadded(dt.year, 4, 4, 4, 0, 9999);
  }

  /** Reading back a date the bot prints gives the same date. */
  lemma ParseFormatDayMonthYear(dt: Date)
    requires Valid(dt)
    ensures ParseDayMonthYear(FormatDayMonthYear(dt)) == Some(dt)
  {
    PaddedHasNoSeparator(dt.day, 2, '.');
    PaddedHasNoSeparator(dt.month, 2, '.');
    PaddedHasNoSeparator(dt.year, 4, '.');
    SplitThree(Padded(dt.day, 2), Padded(dt.month, 2), Padded(dt.year, 4), '.');
    PaddedFields(dt);
  }

  /** Reading back a stored due date gives the date that was stored. */
  lemma ParseFormatIsoDate(dt: Date)
    requires Valid(dt)
    ensures ParseIsoDate(FormatIsoDate(dt)) == Some(dt)
  {
    PaddedHasNoSeparator(dt.day, 2, '-');
    PaddedHasNoSeparator(dt.month, 2, '-');
    PaddedHasNoSeparator(dt.year, 4, '-');
    SplitThree(Padded(dt.year, 4), Padded(dt.month, 2), Padded(dt.day, 2), '-');
    PaddedFields(dt);
  }
}
