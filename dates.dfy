// Calendar arithmetic on integer day numbers: day 0 is 1970-01-01, a
// Thursday. Local time zones are not modelled: a day number is the calendar
// day the browser's local clock shows, and the instant of a `YYYY-MM-DD` key
// is the UTC midnight of that day, as `new Date('YYYY-MM-DD')` gives it.

module Dates {
  import opened Common

  datatype Civil = Civil(year: int, month: int, day: int)

  const MsPerDay: int := 86400000

  predicate IsLeap(y: int)
  {
    y % 4 == 0 && (y % 100 != 0 || y % 400 == 0)
  }

  /** Number of days of month m (1..12) of year y. */
  function DaysInMonth(y: int, m: int): (n: int)
    requires 1 <= m <= 12
    ensures 28 <= n <= 31
    ensures n == 29 <==> (m == 2 && IsLeap(y))
    ensures n == 28 <==> (m == 2 && !IsLeap(y))
    ensures n == 30 <==> (m == 4 || m == 6 || m == 9 || m == 11)
  {
    if m == 2 then (if IsLeap(y) then 29 else 28)
    else if m == 4 || m == 6 || m == 9 || m == 11 then 30
    else 31
  }

  /** The day number of a proleptic Gregorian date (days-from-civil). */
  function DaysFromCivil(c: Civil): int
  {
    var y := if c.month <= 2 then c.year - 1 else c.year;
    var era := y / 400;
    var yoe := y - era * 400;
    var mp := if c.month > 2 then c.month - 3 else c.month + 9;
    var doy := (153 * mp + 2) / 5 + c.day - 1;
    var doe := yoe * 365 + yoe / 4 - yoe / 100 + doy;
    era * 146097 + doe - 719468
  }

  /** The proleptic Gregorian date of a day number (civil-from-days). */
  function CivilFromDays(z0: int): Civil
  {
    var z := z0 + 719468;
    var era := z / 146097;
    var doe := z - era * 146097;
    var yoe := (doe - doe / 1460 + doe / 36524 - doe / 146096) / 365;
    var doy := doe - (365 * yoe + yoe / 4 - yoe / 100);
    var mp := (5 * doy + 2) / 153;
    var d := doy - (153 * mp + 2) / 5 + 1;
    var m := if mp < 10 then mp + 3 else mp - 9;
    Civil(if m <= 2 then yoe + era * 400 + 1 else yoe + era * 400, m, d)
  }

  /** Date.prototype.getDay: 0 is Sunday. */
  function Weekday(z: int): (w: int)
    ensures 0 <= w < 7
  {
    (z + 4) % 7
  }

  /** Consecutive day numbers have consecutive weekdays. */
  lemma WeekdayNext(z: int)
    ensures Weekday(z + 1) == (Weekday(z) + 1) % 7
  {
  }

  /** The Sunday that starts the week containing day z. */
  function WeekStart(z: int): (s: int)
    ensures Weekday(s) == 0
    ensures s <= z < s + 7
  {
    z - Weekday(z)
  }

  /** A Sunday within six days before z is the start of z's week. */
  lemma WeekStartUnique(s: int, z: int)
    requires Weekday(s) == 0 && s <= z < s + 7
    ensures s == WeekStart(z)
  {
    var k := z - s;
    assert (s + 4) % 7 == 0;
    assert (z + 4) % 7 == k by {
      assert z + 4 == (s + 4) + k;
    }
  }

  /**
   * `new Date(y, m - 1 + off, 1)`: the year and month (1..12) reached by
   * moving off months from month m of year y; JavaScript normalises an
   * out-of-range month with floor division, as Dafny's `/` and `%` do.
   */
  function MonthShift(y: int, m: int, off: int): (r: (int, int))
    ensures 1 <= r.1 <= 12
    ensures r.0 * 12 + r.1 == y * 12 + m + off
  {
    var t := y * 12 + (m - 1) + off;
    (t / 12, t % 12 + 1)
  }

  lemma MonthShiftZero(y: int, m: int)
    requires 1 <= m <= 12
    ensures MonthShift(y, m, 0) == (y, m)
  {
  }

  /** Moving back one month from January lands in December of the year before. */
  lemma MonthShiftBackFromJanuary(y: int)
    ensures MonthShift(y, 1, -1) == (y - 1, 12)
  {
  }

  /** Within a month, the next day of the month is the next day number. */
  lemma DaysFromCivilNextDay(y: int, m: int, d: int)
    ensures DaysFromCivil(Civil(y, m, d + 1)) == DaysFromCivil(Civil(y, m, d)) + 1
  {
  }

  /** `String(n).padStart(2, '0')` for any integer n. */
  function PadInt2(n: int): (r: string)
    ensures 0 <= n ==> DigitsOnly(r) && DigitsValue(r) == n && |r| >= 2
  {
    if 0 <= n then Pad2(n) else IntToStr(n)
  }

  predicate DigitsOnly(s: string)
  {
    forall i :: 0 <= i < |s| ==> IsDigit(s[i])
  }

  /** The `${yyyy}-${mm}-${dd}` key the client builds for a calendar date. */
  function DateKey(c: Civil): string
  {
    IntToStr(c.year) + ("-" + (PadInt2(c.month) + ("-" + PadInt2(c.day))))
  }

  /** The key of a day number. */
  function DayKey(z: int): string
  {
    DateKey(CivilFromDays(z))
  }

  /** Reads a `Y-M-D` key of three digit groups back into a date. */
  function ParseDateKey(s: string): Option<Civil>
  {
    var parts := Split(s, '-');
    if |parts| == 3 && parts[0] != [] && parts[1] != [] && parts[2] != []
       && DigitsOnly(parts[0]) && DigitsOnly(parts[1]) && DigitsOnly(parts[2])
    then Some(Civil(DigitsValue(parts[0]), DigitsValue(parts[1]), DigitsValue(parts[2])))
    else None
  }

  lemma SplitNoSep(s: string, sep: char)
    requires sep !in s
    ensures Split(s, sep) == [s]
  {
    assert IndexOfFrom(s, sep, 0).None?;
  }

  lemma SplitAfterPiece(a: string, rest: string, sep: char)
    requires sep !in a
    ensures Split(a + ([sep] + rest), sep) == [a] + Split(rest, sep)
  {
    var s := a + ([sep] + rest);
    forall k | 0 <= k < |a| ensures s[k] != sep {
      assert s[k] == a[k];
    }
    assert s[|a|] == sep;
    FirstIndexOf(s, sep, |a|);
    assert s[..|a|] == a;
    assert s[|a| + 1..] == rest;
  }

  lemma SplitDateKey(c: Civil)
    requires c.year >= 0 && c.month >= 1 && c.day >= 1
    ensures Split(DateKey(c), '-') == [IntToStr(c.year), PadInt2(c.month), PadInt2(c.day)]
  {
    var ys, ms, ds := IntToStr(c.year), PadInt2(c.month), PadInt2(c.day);
    assert DigitsOnly(ys) && DigitsOnly(ms) && DigitsOnly(ds);
    assert '-' !in ys && '-' !in ms && '-' !in ds;
    SplitNoSep(ds, '-');
    SplitAfterPiece(ms, ds, '-');
    SplitAfterPiece(ys, ms + ("-" + ds), '-');
  }

  /** A date with a non-negative year and positive month and day reads back from its key. */
  lemma ParseDateKeyRoundTrip(c: Civil)
    requires c.year >= 0 && c.month >= 1 && c.day >= 1
    ensures ParseDateKey(DateKey(c)) == Some(c)
  {
    SplitDateKey(c);
    DigitsOfNatToStr(c.year);
    var parts := Split(DateKey(c), '-');
    assert DigitsValue(parts[0]) == c.year;
    assert DigitsValue(parts[1]) == c.month;
    assert DigitsValue(parts[2]) == c.day;
  }

  /** Distinct dates of non-negative years have distinct keys. */
  lemma DateKeyInjective(c1: Civil, c2: Civil)
    requires c1.year >= 0 && c1.month >= 1 && c1.day >= 1
    requires c2.year >= 0 && c2.month >= 1 && c2.day >= 1
    requires DateKey(c1) == DateKey(c2)
    ensures c1 == c2
  {
    ParseDateKeyRoundTrip(c1);
    ParseDateKeyRoundTrip(c2);
  }

  /** `padStart(2, '0')` of a number below 100 is exactly two digits. */
  lemma Pad2TwoDigits(n: nat)
    requires n < 100
    ensures |Pad2(n)| == 2
  {
    if n >= 10 {
      assert NatToStr(n) == NatToStr(n / 10) + [DigitChar(n % 10)];
    }
  }

  /**
   * The layout of a key: the year, a '-', the month as exactly two digits,
   * a '-', and the day as exactly two digits.
   */
  lemma DateKeyLayout(c: Civil)
    requires c.year >= 0 && 1 <= c.month <= 12 && 1 <= c.day <= 31
    ensures var k, y := DateKey(c), |IntToStr(c.year)|;
      |k| == y + 6 && k[y] == '-' && k[y + 3] == '-'
      && DigitsOnly(k[y + 1..y + 3]) && DigitsValue(k[y + 1..y + 3]) == c.month
      && DigitsOnly(k[y + 4..]) && DigitsValue(k[y + 4..]) == c.day
  {
    Pad2TwoDigits(c.month);
    Pad2TwoDigits(c.day);
    var ys, ms, ds := IntToStr(c.year), PadInt2(c.month), PadInt2(c.day);
    var k := DateKey(c);
    assert k == ys + "-" + ms + "-" + ds;
    assert k[|ys| + 1..|ys| + 3] == ms;
    assert k[|ys| + 4..] == ds;
  }

  /** The Unix epoch is 1970-01-01, a Thursday. */
  lemma EpochDay()
    ensures DaysFromCivil(Civil(1970, 1, 1)) == 0
  {
  }

  lemma EpochDate()
    ensures CivilFromDays(0) == Civil(1970, 1, 1)
  {
    var z := 0 + 719468;
    assert z / 146097 == 4;
    var doe := z - 4 * 146097;
    assert doe == 135080;
    assert doe / 1460 == 92 && doe / 36524 == 3 && doe / 146096 == 0;
    assert (doe - 92 + 3 - 0) / 365 == 369;
    var doy := doe - (365 * 369 + 369 / 4 - 369 / 100);
    assert doy == 306;
    assert (5 * doy + 2) / 153 == 10;
    assert doy - (153 * 10 + 2) / 5 + 1 == 1;
  }

  lemma EpochWeekday()
    ensures Weekday(0) == 4
  {
  }

  /** JavaScript's `%`: the remainder takes the sign of the dividend. */
  function JsRem(a: int, b: int): (r: int)
    requires b != 0
    ensures a >= 0 ==> 0 <= r < if b > 0 then b else -b
    ensures a < 0 ==> r <= 0
  {
    var m := if b > 0 then b else -b;
    if a >= 0 then a % m else -((-a) % m)
  }

  /**
   * `a % f === 0` in JavaScript holds exactly when f divides a (a negative
   * dividend yields -0, which compares equal to 0).
   */
  lemma JsRemZeroIffDivides(a: int, f: int)
    requires f > 0
    ensures JsRem(a, f) == 0 <==> a % f == 0
  {
    if a < 0 {
      var q, r := (-a) / f, (-a) % f;
      assert -a == q * f + r;
      if r == 0 {
        assert a == (-q) * f + 0;
        ModUnique(a, f, -q, 0);
      } else {
        assert a == (-q - 1) * f + (f - r);
        ModUnique(a, f, -q - 1, f - r);
      }
    }
  }

  /** Euclidean quotients and remainders are unique. */
  lemma ModUnique(a: int, f: int, k: int, r: int)
    requires f > 0 && 0 <= r < f && a == k * f + r
    ensures a / f == k && a % f == r
  {
    var k', r' := a / f, a % f;
    assert k * f + r == k' * f + r';
    var x := k - k';
    assert x * f == r' - r;
    if x >= 1 {
      MulAtLeast(x, f);
    } else if x <= -1 {
      MulAtLeast(-x, f);
    }
  }

  lemma {:induction false} MulAtLeast(x: int, f: int)
    requires x >= 1 && f > 0
    ensures x * f >= f
  {
    if x > 1 {
      MulAtLeast(x - 1, f);
      assert x * f == (x - 1) * f + f;
    }
  }

  /** Math.floor(a / b) for b > 0. */
  function FloorDiv(a: int, b: int): (q: int)
    requires b > 0
    ensures q * b <= a < q * b + b
  {
    a / b
  }

  /** Math.ceil(a / b) for b > 0. */
  function CeilDiv(a: int, b: int): (q: int)
    requires b > 0
    ensures q * b - b < a <= q * b
  {
    -((-a) / b)
  }
}
