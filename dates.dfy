/**
 * The proleptic Gregorian calendar of Python's `datetime.date` (years 1 to
 * 9999), day arithmetic with `timedelta` (None where Python raises
 * OverflowError), the ISO `YYYY-MM-DD` text form, `datetime.strptime(s,
 * "%Y-%m-%d")`, the `%H:%M` slot labels and the age computation.
 */
module Dates {
  import opened Common

  datatype Date = Date(year: int, month: int, day: int)

  const MaxYear := 9999
  const MinDate := Date(1, 1, 1)
  const MaxDate := Date(9999, 12, 31)

  predicate IsLeap(y: int) {
    y % 4 == 0 && (y % 100 != 0 || y % 400 == 0)
  }

  function DaysInMonth(y: int, m: int): (n: int)
    requires 1 <= m <= 12
    ensures 28 <= n <= 31
    ensures m == 2 ==> (n == 29 <==> IsLeap(y))
  {
    if m == 2 then (if IsLeap(y) then 29 else 28)
    else if m == 4 || m == 6 || m == 9 || m == 11 then 30
    else 31
  }

  function DaysInYear(y: int): int {
    if IsLeap(y) then 366 else 365
  }

  predicate ValidDate(d: Date) {
    1 <= d.year <= MaxYear && 1 <= d.month <= 12 && 1 <= d.day <= DaysInMonth(d.year, d.month)
  }

  /** Chronological order (`a < b` on `date`). */
  predicate Before(a: Date, b: Date) {
    a.year < b.year ||
    (a.year == b.year && (a.month < b.month || (a.month == b.month && a.day < b.day)))
  }

  predicate OnOrBefore(a: Date, b: Date) {
    a == b || Before(a, b)
  }

  // ---------------------------------------------------------------------
  // Day arithmetic
  // ---------------------------------------------------------------------

  /** `d + timedelta(days=1)`: the very next valid date. */
  function NextDay(d: Date): (r: Option<Date>)
    requires ValidDate(d)
    ensures r.None? <==> d == MaxDate
    ensures r.Some? ==> ValidDate(r.value) && Before(d, r.value)
    ensures r.Some? ==> forall e :: ValidDate(e) && Before(d, e) ==> OnOrBefore(r.value, e)
  {
    if d.day < DaysInMonth(d.year, d.month) then Some(Date(d.year, d.month, d.day + 1))
    else if d.month < 12 then Some(Date(d.year, d.month + 1, 1))
    else if d.year < MaxYear then Some(Date(d.year + 1, 1, 1))
    else None
  }

  /** `d - timedelta(days=1)`: the valid date whose next day is `d`. */
  function PrevDay(d: Date): (r: Option<Date>)
    requires ValidDate(d)
    ensures r.None? <==> d == MinDate
    ensures r.Some? ==> ValidDate(r.value) && NextDay(r.value) == Some(d)
  {
    if d.day > 1 then Some(Date(d.year, d.month, d.day - 1))
    else if d.month > 1 then Some(Date(d.year, d.month - 1, DaysInMonth(d.year, d.month - 1)))
    else if d.year > 1 then Some(Date(d.year - 1, 12, 31))
    else None
  }

  /** `d + timedelta(days=n)`, None when the result would pass 9999-12-31. */
  function AddDays(d: Date, n: nat): (r: Option<Date>)
    requires ValidDate(d)
    ensures r.Some? ==> ValidDate(r.value)
    decreases n
  {
    if n == 0 then Some(d)
    else match NextDay(d)
      case None => None
      case Some(e) => AddDays(e, n - 1)
  }

  /** Adding one more day is one more step of NextDay. */
  lemma {:induction false} AddDaysSucc(d: Date, n: nat)
    requires ValidDate(d)
    ensures AddDays(d, n + 1) == match AddDays(d, n) case None => None case Some(e) => NextDay(e)
    decreases n
  {
    if n > 0 {
      match NextDay(d)
      case None =>
      case Some(e) => AddDaysSucc(e, n - 1);
    }
  }

  /** Adding days never moves backwards. */
  lemma {:induction false} AddDaysNotBefore(d: Date, n: nat)
    requires ValidDate(d) && AddDays(d, n).Some?
    ensures OnOrBefore(d, AddDays(d, n).value)
    ensures n > 0 ==> Before(d, AddDays(d, n).value)
    decreases n
  {
    if n > 0 {
      var e := NextDay(d).value;
      AddDaysNotBefore(e, n - 1);
    }
  }

  /**
   * If `d + n` exists then so does every `d + i` before it, and the dates
   * are in strictly increasing order.
   */
  lemma {:induction false} AddDaysMonotone(d: Date, i: nat, j: nat)
    requires ValidDate(d) && i < j && AddDays(d, j).Some?
    ensures AddDays(d, i).Some?
    ensures Before(AddDays(d, i).value, AddDays(d, j).value)
    decreases i
  {
    var e := NextDay(d).value;
    if i == 0 {
      AddDaysNotBefore(e, j - 1);
    } else {
      AddDaysMonotone(e, i - 1, j - 1);
    }
  }

  // ---------------------------------------------------------------------
  // Position within the year
  // ---------------------------------------------------------------------

  function DaysBeforeMonth(y: int, m: int): int
    requires 1 <= m <= 12
  {
    (if m == 1 then 0 else if m == 2 then 31 else if m == 3 then 59 else if m == 4 then 90
     else if m == 5 then 120 else if m == 6 then 151 else if m == 7 then 181
     else if m == 8 then 212 else if m == 9 then 243 else if m == 10 then 273
     else if m == 11 then 304 else 334)
    + (if m > 2 && IsLeap(y) then 1 else 0)
  }

  /** Zero-based ordinal of `d` within its year. */
  function DayOfYear(d: Date): int
    requires ValidDate(d)
  {
    DaysBeforeMonth(d.year, d.month) + d.day - 1
  }

  lemma DayOfYearBound(d: Date)
    requires ValidDate(d)
    ensures 0 <= DayOfYear(d) < DaysInYear(d.year)
    ensures DayOfYear(d) == DaysInYear(d.year) - 1 <==> d.month == 12 && d.day == 31
  {
  }

  /**
   * Counting `k` days on from 1 January stays inside the year for every
   * `k` below the length of the year (the seeded appointment dates).
   */
  lemma {:induction false} AddDaysWithinYear(y: int, k: nat)
    requires 1 <= y <= MaxYear && k < DaysInYear(y)
    ensures AddDays(Date(y, 1, 1), k).Some?
    ensures AddDays(Date(y, 1, 1), k).value.year == y
    ensures DayOfYear(AddDays(Date(y, 1, 1), k).value) == k
    decreases k
  {
    if k > 0 {
      AddDaysWithinYear(y, k - 1);
      var e := AddDays(Date(y, 1, 1), k - 1).value;
      NextDayInYear(e);
      AddDaysSucc(Date(y, 1, 1), k - 1);
    }
  }

  /** Before 31 December the next day is in the same year, one ordinal on. */
  lemma NextDayInYear(e: Date)
    requires ValidDate(e) && DayOfYear(e) < DaysInYear(e.year) - 1
    ensures NextDay(e).Some? && NextDay(e).value.year == e.year
    ensures DayOfYear(NextDay(e).value) == DayOfYear(e) + 1
  {
    DayOfYearBound(e);
  }

  // ---------------------------------------------------------------------
  // Digits
  // ---------------------------------------------------------------------

  function Pad2(n: nat): (s: string)
    requires n < 100
    ensures |s| == 2 && IsDigit(s[0]) && IsDigit(s[1])
  {
    [DigitChar(n / 10), DigitChar(n % 10)]
  }

  function Pad4(n: nat): (s: string)
    requires n < 10000
    ensures |s| == 4 && forall i :: 0 <= i < 4 ==> IsDigit(s[i])
  {
    Pad2(n / 100) + Pad2(n % 100)
  }

  predicate AllDigits(s: string) {
    forall i :: 0 <= i < |s| ==> IsDigit(s[i])
  }

  function Value2(s: string): (n: nat)
    requires |s| == 2 && AllDigits(s)
    ensures n < 100 && Pad2(n) == s
  {
    10 * DigitValue(s[0]) + DigitValue(s[1])
  }

  function Value4(s: string): (n: nat)
    requires |s| == 4 && AllDigits(s)
    ensures n < 10000 && Pad4(n) == s
  {
    assert s == s[..2] + s[2..];
    100 * Value2(s[..2]) + Value2(s[2..])
  }

  lemma Value2Pad2(n: nat)
    requires n < 100
    ensures Value2(Pad2(n)) == n
  {
  }

  lemma Value4Pad4(n: nat)
    requires n < 10000
    ensures Value4(Pad4(n)) == n
  {
    var s := Pad4(n);
    assert s[..2] == Pad2(n / 100) && s[2..] == Pad2(n % 100);
    Value2Pad2(n / 100);
    Value2Pad2(n % 100);
  }

  /** Zero-padded numbers of equal width sort as text exactly as they do as numbers. */
  lemma Pad2Order(a: nat, b: nat)
    requires a < 100 && b < 100
    ensures a < b <==> StrLt(Pad2(a), Pad2(b))
  {
    var x, y := Pad2(a), Pad2(b);
    assert x == [x[0]] + [x[1]] && y == [y[0]] + [y[1]];
    StrLtConcat([x[0]], [x[1]], [y[0]], [y[1]]);
    assert x[1..] == [x[1]] && y[1..] == [y[1]];
  }

  lemma Pad4Order(a: nat, b: nat)
    requires a < 10000 && b < 10000
    ensures a < b <==> StrLt(Pad4(a), Pad4(b))
  {
    StrLtConcat(Pad2(a / 100), Pad2(a % 100), Pad2(b / 100), Pad2(b % 100));
    Pad2Order(a / 100, b / 100);
    Pad2Order(a % 100, b % 100);
    if Pad2(a / 100) == Pad2(b / 100) {
      Value2Pad2(a / 100);
      Value2Pad2(b / 100);
    }
  }

  // ---------------------------------------------------------------------
  // ISO text form
  // ---------------------------------------------------------------------

  /** `d.isoformat()`. */
  function FormatIso(d: Date): (s: string)
    requires ValidDate(d)
    ensures |s| == 10
  {
    Pad4(d.year) + "-" + Pad2(d.month) + "-" + Pad2(d.day)
  }

  predicate IsoShape(s: string) {
    |s| == 10 && s[4] == '-' && s[7] == '-' &&
    AllDigits(s[..4]) && AllDigits(s[5..7]) && AllDigits(s[8..])
  }

  /** `datetime.fromisoformat(s).date()` on the date-only `YYYY-MM-DD` form. */
  function ParseIso(s: string): (r: Option<Date>)
    ensures r.Some? ==> ValidDate(r.value) && FormatIso(r.value) == s
  {
    if IsoShape(s) then
      var d := Date(Value4(s[..4]), Value2(s[5..7]), Value2(s[8..]));
      if ValidDate(d) then
        assert s == s[..4] + "-" + s[5..7] + "-" + s[8..];
        Some(d)
      else None
    else None
  }

  lemma ParseFormatIso(d: Date)
    requires ValidDate(d)
    ensures ParseIso(FormatIso(d)) == Some(d)
  {
    var s := FormatIso(d);
    assert s[..4] == Pad4(d.year) && s[5..7] == Pad2(d.month) && s[8..] == Pad2(d.day);
    Value4Pad4(d.year);
    Value2Pad2(d.month);
    Value2Pad2(d.day);
  }

  lemma FormatIsoInjective(a: Date, b: Date)
    requires ValidDate(a) && ValidDate(b) && FormatIso(a) == FormatIso(b)
    ensures a == b
  {
    ParseFormatIso(a);
    ParseFormatIso(b);
  }

  /**
   * ISO strings compare as text exactly as the dates compare in time, so
   * a text range test on stored date strings is a date range test.
   */
  lemma IsoOrder(a: Date, b: Date)
    requires ValidDate(a) && ValidDate(b)
    ensures Before(a, b) <==> StrLt(FormatIso(a), FormatIso(b))
  {
    var dm1, dm2 := "-" + Pad2(a.month), "-" + Pad2(b.month);
    var dd1, dd2 := "-" + Pad2(a.day), "-" + Pad2(b.day);
    assert FormatIso(a) == Pad4(a.year) + (dm1 + dd1);
    assert FormatIso(b) == Pad4(b.year) + (dm2 + dd2);
    StrLtConcat(Pad4(a.year), dm1 + dd1, Pad4(b.year), dm2 + dd2);
    StrLtConcat(dm1, dd1, dm2, dd2);
    StrLtConcat("-", Pad2(a.month), "-", Pad2(b.month));
    StrLtConcat("-", Pad2(a.day), "-", Pad2(b.day));
    StrLtIrreflexive("-");
    Pad4Order(a.year, b.year);
    Pad2Order(a.month, b.month);
    Pad2Order(a.day, b.day);
    if Pad4(a.year) == Pad4(b.year) { Value4Pad4(a.year); Value4Pad4(b.year); }
    if dm1 == dm2 {
      assert dm1[1..] == Pad2(a.month) && dm2[1..] == Pad2(b.month);
      Value2Pad2(a.month); Value2Pad2(b.month);
    }
  }

  lemma IsoOrderLe(a: Date, b: Date)
    requires ValidDate(a) && ValidDate(b)
    ensures OnOrBefore(a, b) <==> StrLe(FormatIso(a), FormatIso(b))
  {
    IsoOrder(a, b);
    if FormatIso(a) == FormatIso(b) { FormatIsoInjective(a, b); }
  }

  // ---------------------------------------------------------------------
  // datetime.strptime(s, "%Y-%m-%d")
  // ---------------------------------------------------------------------

  /**
   * The `%m-` part: Python's pattern `1[0-2]|0[1-9]|[1-9]` followed by the
   * literal dash; yields the month and the text after the dash.
   */
  function MonthField(t: string): Option<(int, string)> {
    if |t| >= 3 && t[2] == '-' &&
       ((t[0] == '1' && '0' <= t[1] <= '2') || (t[0] == '0' && '1' <= t[1] <= '9')) then
      Some((10 * DigitValue(t[0]) + DigitValue(t[1]), t[3..]))
    else if |t| >= 2 && t[1] == '-' && '1' <= t[0] <= '9' then
      Some((DigitValue(t[0]), t[2..]))
    else None
  }

  /**
   * The `%d` part, which must use up the rest of the text: Python's pattern
   * `3[01]|[12]\d|0[1-9]|[1-9]| [1-9]`.
   */
  function DayField(t: string): Option<int> {
    if |t| == 2 && ((t[0] == '3' && '0' <= t[1] <= '1') || ('1' <= t[0] <= '2' && IsDigit(t[1])) ||
                    (t[0] == '0' && '1' <= t[1] <= '9')) then
      Some(10 * DigitValue(t[0]) + DigitValue(t[1]))
    else if |t| == 2 && t[0] == ' ' && '1' <= t[1] <= '9' then
      Some(DigitValue(t[1]))
    else if |t| == 1 && '1' <= t[0] <= '9' then
      Some(DigitValue(t[0]))
    else None
  }

  /** `datetime.strptime(s, "%Y-%m-%d").date()`, None where Python raises ValueError. */
  function Strptime(s: string): (r: Option<Date>)
    ensures r.Some? ==> ValidDate(r.value)
    ensures r.Some? ==> 8 <= |s| <= 10 && s[4] == '-'
  {
    if |s| < 8 || !AllDigits(s[..4]) || s[4] != '-' then None
    else match MonthField(s[5..])
      case None => None
      case Some((m, rest)) =>
        match DayField(rest)
        case None => None
        case Some(day) =>
          var d := Date(Value4(s[..4]), m, day);
          if ValidDate(d) then Some(d) else None
  }

  /** Every canonical ISO date is accepted by strptime with the same meaning. */
  lemma StrptimeIso(s: string)
    requires ParseIso(s).Some?
    ensures Strptime(s) == ParseIso(s)
  {
    var d := ParseIso(s).value;
    assert s[5..][..2] == s[5..7];
    assert s[5..][3..] == s[8..];
  }

  lemma StrptimeFormatIso(d: Date)
    requires ValidDate(d)
    ensures Strptime(FormatIso(d)) == Some(d)
  {
    ParseFormatIso(d);
    StrptimeIso(FormatIso(d));
  }

  /** strptime also accepts unpadded fields, which have no ISO reading. */
  lemma StrptimeAcceptsUnpadded()
    ensures Strptime("2025-6-1") == Some(Date(2025, 6, 1))
    ensures ParseIso("2025-6-1").None?
    ensures FormatIso(Date(2025, 6, 1)) != "2025-6-1"
  {
    StrptimeReadsUnpadded();
    assert |FormatIso(Date(2025, 6, 1))| == 10;
  }

  lemma StrptimeReadsUnpadded()
    ensures Strptime("2025-6-1") == Some(Date(2025, 6, 1))
  {
    var s := "2025-6-1";
    assert s[..4] == "2025" && s[5..] == "6-1";
    Year2025();
    assert MonthField("6-1") == Some((6, "1")) by { assert "6-1"[2..] == "1"; }
    assert DayField("1") == Some(1);
    assert ValidDate(Date(2025, 6, 1));
  }

  lemma Year2025() ensures AllDigits("2025") && Value4("2025") == 2025 {
    assert "2025"[..2] == "20" && "2025"[2..] == "25";
  }

  // ---------------------------------------------------------------------
  // Clock labels "%H:%M"
  // ---------------------------------------------------------------------

  /** `time.strftime("%H:%M")` for the time `minutes` after midnight. */
  function Label(minutes: nat): (s: string)
    requires minutes < 1440
    ensures |s| == 5 && s[2] == ':'
  {
    Pad2(minutes / 60) + ":" + Pad2(minutes % 60)
  }

  /** Labels sort as text exactly as the times sort. */
  lemma LabelOrder(a: nat, b: nat)
    requires a < 1440 && b < 1440
    ensures a < b <==> StrLt(Label(a), Label(b))
  {
    var t1, t2 := ":" + Pad2(a % 60), ":" + Pad2(b % 60);
    assert Label(a) == Pad2(a / 60) + t1 && Label(b) == Pad2(b / 60) + t2;
    StrLtConcat(Pad2(a / 60), t1, Pad2(b / 60), t2);
    StrLtConcat(":", Pad2(a % 60), ":", Pad2(b % 60));
    StrLtIrreflexive(":");
    Pad2Order(a / 60, b / 60);
    Pad2Order(a % 60, b % 60);
    if Pad2(a / 60) == Pad2(b / 60) { Value2Pad2(a / 60); Value2Pad2(b / 60); }
  }

  lemma LabelInjective(a: nat, b: nat)
    requires a < 1440 && b < 1440 && Label(a) == Label(b)
    ensures a == b
  {
    LabelOrder(a, b);
    LabelOrder(b, a);
    StrLtIrreflexive(Label(a));
  }

  /** The labels of the half hours from 09:00 up to, not including, 17:00. */
  function WorkingHalfHours(): seq<string> {
    seq(16, k requires 0 <= k < 16 => Label(540 + 30 * k))
  }

  /**
   * Sixteen labels, 09:00 first and 16:30 last, strictly increasing, with
   * 13:00 and 13:30 among them.
   */
  lemma WorkingHalfHoursShape()
    ensures |WorkingHalfHours()| == 16
    ensures WorkingHalfHours()[0] == "09:00" && WorkingHalfHours()[15] == "16:30"
    ensures WorkingHalfHours()[8] == "13:00" && WorkingHalfHours()[9] == "13:30"
    ensures forall i, j :: 0 <= i < j < 16 ==> StrLt(WorkingHalfHours()[i], WorkingHalfHours()[j])
  {
    var w := WorkingHalfHours();
    LabelText(540, 9, 0, "09:00");
    LabelText(990, 16, 30, "16:30");
    LabelText(780, 13, 0, "13:00");
    LabelText(810, 13, 30, "13:30");
    assert w[0] == Label(540) && w[15] == Label(990) && w[8] == Label(780) && w[9] == Label(810);
    WorkingHalfHoursIncrease();
  }

  /** The label of a time given as hours and minutes. */
  lemma LabelText(minutes: nat, h: nat, m: nat, text: string)
    requires h < 24 && m < 60 && minutes == 60 * h + m
    requires text == Pad2(h) + ":" + Pad2(m)
    ensures Label(minutes) == text
  {
  }

  lemma WorkingHalfHoursIncrease()
    ensures forall i, j :: 0 <= i < j < 16 ==> StrLt(WorkingHalfHours()[i], WorkingHalfHours()[j])
  {
    var w := WorkingHalfHours();
    forall i, j | 0 <= i < j < 16 ensures StrLt(w[i], w[j]) {
      assert w[i] == Label(540 + 30 * i) && w[j] == Label(540 + 30 * j);
      LabelOrder(540 + 30 * i, 540 + 30 * j);
    }
  }

  // ---------------------------------------------------------------------
  // Age
  // ---------------------------------------------------------------------

  /** Whole years from `dob` to `today`: one less before this year's birthday. */
  function Age(dob: Date, today: Date): int {
    today.year - dob.year -
    (if today.month < dob.month || (today.month == dob.month && today.day < dob.day) then 1 else 0)
  }

  /** The day on which the age goes up: the birthday, or 1 March for 29 February in a common year. */
  predicate CelebratesOn(dob: Date, d: Date) {
    (d.month == dob.month && d.day == dob.day) ||
    (dob.month == 2 && dob.day == 29 && !IsLeap(d.year) && d.month == 3 && d.day == 1)
  }

  /** The age is zero from the birth date up to the first birthday, and never negative. */
  lemma AgeNonNegative(dob: Date, today: Date)
    requires ValidDate(dob) && ValidDate(today) && OnOrBefore(dob, today)
    ensures Age(dob, today) >= 0
    ensures Age(dob, dob) == 0
  {
  }

  /** From one day to the next the age rises by one exactly on the birthday. */
  lemma AgeStep(dob: Date, d: Date)
    requires ValidDate(dob) && ValidDate(d) && d != MaxDate
    ensures Age(dob, NextDay(d).value) == Age(dob, d) + (if CelebratesOn(dob, NextDay(d).value) then 1 else 0)
  {
  }
}
