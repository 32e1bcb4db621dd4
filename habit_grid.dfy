// The habit scheduling of src/features/habits/HabitGrid.jsx: the day keys of
// the shown window, the due-day rule, the resizing of the positional logs,
// completion rates, period navigation and labels, the "log all due habits"
// action, and the three-step confirmation before a habit is logged for today.
//
// "Today" is a parameter: `today` is the browser's local day number, and
// `utcToday` is the `YYYY-MM-DD` key that `toISOString()` yields for the same
// moment. Date parsing (`new Date(key)`) is the parameter `parse`, giving the
// instant in milliseconds or `None` for an Invalid Date.

module HabitGrid {
  import opened Common
  import opened Dates
  import opened Store

  // ---------------------------------------------------------------------
  // getDaysArray (lines 5-40).
  // ---------------------------------------------------------------------

  /** The first day of the week shown at week offset `offset`. */
  function WeekWindowStart(offset: int, today: int): (s: int)
    ensures Weekday(s) == 0
    ensures s <= today + 7 * offset < s + 7
  {
    WeekStart(today + 7 * offset)
  }

  /** The year and month shown at month offset `offset`. */
  function MonthWindow(offset: int, today: int): (ym: (int, int))
    ensures 1 <= ym.1 <= 12
    ensures ym.0 * 12 + ym.1 == CivilFromDays(today).year * 12 + CivilFromDays(today).month + offset
  {
    MonthShift(CivilFromDays(today).year, CivilFromDays(today).month, offset)
  }

  /** The list of key(first), ..., key(first + n - 1). */
  function Keys(n: nat, first: int, key: int -> string): (r: seq<string>)
    ensures |r| == n && forall k :: 0 <= k < n ==> r[k] == key(first + k)
  {
    seq(n, k => key(first + k))
  }

  /**
   * The day keys of the window: the seven days of a Sunday-start week, the
   * days of a calendar month from the 1st, or none for any other span.
   */
  function WindowDays(span: Span, offset: int, today: int): (r: seq<string>)
  {
    match span
    case Week => WeekDays(offset, today)
    case Month => MonthDays(offset, today)
    case _ => []
  }

  /** The keys of the seven days of the week shown at week offset `offset`. */
  function WeekDays(offset: int, today: int): (r: seq<string>)
  {
    Keys(7, WeekWindowStart(offset, today), DayKey)
  }

  /** The keys of the days of the month shown at month offset `offset`. */
  function MonthDays(offset: int, today: int): (r: seq<string>)
  {
    var ym := MonthWindow(offset, today);
    Keys(DaysInMonth(ym.0, ym.1), 1, (d: int) => DateKey(Civil(ym.0, ym.1, d)))
  }

  /** The week window holds the keys of the seven days from its Sunday. */
  lemma WeekWindowDays(offset: int, today: int, i: int, z: int)
    requires 0 <= i < 7 && z == WeekWindowStart(offset, today) + i
    ensures |WeekDays(offset, today)| == 7
    ensures WeekDays(offset, today)[i] == DayKey(z)
  {
    KeysAt(7, WeekWindowStart(offset, today), DayKey, i, z);
  }

  lemma KeysAt(n: nat, first: int, key: int -> string, i: int, z: int)
    requires 0 <= i < n && z == first + i
    ensures Keys(n, first, key)[i] == key(z)
  {
  }

  /** The month window holds the keys of the days of its month, from the 1st. */
  lemma MonthWindowDays(offset: int, today: int)
    ensures var ym := MonthWindow(offset, today); var r := MonthDays(offset, today);
      |r| == DaysInMonth(ym.0, ym.1)
      && forall i :: 0 <= i < |r| ==> r[i] == DateKey(Civil(ym.0, ym.1, i + 1))
  {
  }

  /** getDaysArray: the keys pushed one day at a time. */
  method GetDaysArray(span: Span, offset: int, today: int) returns (days: seq<string>)
    ensures days == WindowDays(span, offset, today)
  {
    if span == Week {
      days := PushKeys(7, WeekWindowStart(offset, today), DayKey);
    } else if span == Month {
      var ym := MonthWindow(offset, today);
      days := PushKeys(DaysInMonth(ym.0, ym.1), 1, (d: int) => DateKey(Civil(ym.0, ym.1, d)));
    } else {
      days := [];
    }
  }

  /** The loop of getDaysArray: push the keys of n consecutive days from `first`. */
  method PushKeys(n: nat, first: int, key: int -> string) returns (days: seq<string>)
    ensures days == Keys(n, first, key)
  {
    days := [];
    for i := 0 to n
      invariant |days| == i
      invariant forall k :: 0 <= k < i ==> days[k] == key(first + k)
    {
      days := days + [key(first + i)];
    }
  }

  /** The week window runs Sunday to Saturday: its i-th day is a weekday i. */
  lemma WeekWindowWeekday(offset: int, today: int, i: int)
    requires 0 <= i < 7
    ensures Weekday(WeekWindowStart(offset, today) + i) == i
  {
    var s := WeekWindowStart(offset, today);
    assert (s + 4) % 7 == 0;
    assert s + i + 4 == (s + 4) + i;
  }

  /** The shifted day sits in the week window at the position of its weekday. */
  lemma WeekWindowHoldsDay(offset: int, today: int)
    ensures WeekDays(offset, today)[Weekday(today + 7 * offset)] == DayKey(today + 7 * offset)
  {
    var t := today + 7 * offset;
    WeekWindowDays(offset, today, Weekday(t), t);
  }

  /** Moving one week forward shifts the whole window by seven days. */
  lemma NextWeekWindow(offset: int, today: int)
    ensures WeekWindowStart(offset + 1, today) == WeekWindowStart(offset, today) + 7
  {
    var t := today + 7 * offset;
    assert today + 7 * (offset + 1) == t + 7;
    assert (t + 7 + 4) % 7 == (t + 4) % 7;
  }

  /** The month keys are distinct and each reads back as its date (years from 0 on). */
  lemma MonthWindowKeys(offset: int, today: int)
    requires MonthWindow(offset, today).0 >= 0
    ensures var r := MonthDays(offset, today); var ym := MonthWindow(offset, today);
      (forall i :: 0 <= i < |r| ==> ParseDateKey(r[i]) == Some(Civil(ym.0, ym.1, i + 1)))
      && NoDuplicates(r)
  {
    var r := MonthDays(offset, today);
    var ym := MonthWindow(offset, today);
    forall i | 0 <= i < |r| ensures ParseDateKey(r[i]) == Some(Civil(ym.0, ym.1, i + 1)) {
      ParseDateKeyRoundTrip(Civil(ym.0, ym.1, i + 1));
    }
    forall i, j | 0 <= i < j < |r| ensures r[i] != r[j] {
      if r[i] == r[j] {
        DateKeyInjective(Civil(ym.0, ym.1, i + 1), Civil(ym.0, ym.1, j + 1));
      }
    }
  }

  /** Offset 0 is the current month; going back from January lands in December. */
  lemma MonthWindowOffsets(today: int)
    ensures MonthWindow(0, today) == (CivilFromDays(today).year, CivilFromDays(today).month)
    ensures CivilFromDays(today).month == 1 ==> MonthWindow(-1, today) == (CivilFromDays(today).year - 1, 12)
  {
    var c := CivilFromDays(today);
    CivilMonthInRange(today);
    MonthShiftZero(c.year, c.month);
    if c.month == 1 {
      MonthShiftBackFromJanuary(c.year);
    }
  }

  lemma CivilMonthInRange(z: int)
    ensures 1 <= CivilFromDays(z).month <= 12
  {
  }

  // ---------------------------------------------------------------------
  // The due-day rule (lines 534-544, and LogTodayModal lines 211-220).
  // ---------------------------------------------------------------------

  /**
   * isHabitDueToday: daily habits are always due; otherwise the whole days
   * from the creation date (or from the day itself when there is none) to
   * the day are counted, and the day is due when the count is a multiple of
   * the frequency. An Invalid Date, or a frequency of 0 (NaN), is never due.
   */
  predicate IsDue(frequency: int, createdAt: string, day: string, parse: string -> Option<int>)
  {
    if frequency == 1 then true
    else
      var start := parse(if createdAt != "" then createdAt else day);
      var current := parse(day);
      start.Some? && current.Some? && frequency != 0
      && JsRem(FloorDiv(current.value - start.value, MsPerDay), frequency) == 0
  }

  /**
   * For parsed instants at midnight (as date-only keys give), a day is due
   * exactly when its distance in days from the start is a multiple of the
   * frequency.
   */
  lemma IsDueOnDays(frequency: int, createdAt: string, day: string, parse: string -> Option<int>, c: int, d: int)
    requires frequency >= 1 && createdAt != ""
    requires parse(createdAt) == Some(c * MsPerDay) && parse(day) == Some(d * MsPerDay)
    ensures IsDue(frequency, createdAt, day, parse) <==> (d - c) % frequency == 0
  {
    assert d * MsPerDay - c * MsPerDay == (d - c) * MsPerDay;
    assert FloorDiv((d - c) * MsPerDay, MsPerDay) == d - c;
    JsRemZeroIffDivides(d - c, frequency);
  }

  /** A habit with no creation date is due on every day the parser accepts. */
  lemma IsDueWithoutCreation(frequency: int, day: string, parse: string -> Option<int>)
    requires frequency != 0 && parse(day).Some?
    ensures IsDue(frequency, "", day, parse)
  {
    assert FloorDiv(0, MsPerDay) == 0;
  }

  /** Due days repeat every `frequency` days. */
  lemma DueDaysPeriodic(frequency: int, c: int, d: int)
    requires frequency >= 1
    requires (d - c) % frequency == 0
    ensures ((d + frequency) - c) % frequency == 0
  {
    var q := (d - c) / frequency;
    assert d - c == q * frequency;
    assert (d + frequency) - c == (q + 1) * frequency;
    ModUnique((d + frequency) - c, frequency, q + 1, 0);
  }

  // ---------------------------------------------------------------------
  // Resizing the positional logs to the window (lines 511-532).
  // ---------------------------------------------------------------------

  /** The log cut or padded with false to length n. */
  function Resized(c: seq<bool>, n: nat): (r: seq<bool>)
    ensures |r| == n
    ensures forall k :: 0 <= k < n && k < |c| ==> r[k] == c[k]
    ensures forall k :: |c| <= k < n ==> !r[k]
    ensures n == |c| ==> r == c
  {
    if n <= |c| then c[..n] else c + AllFalse(n - |c|)
  }

  /** Resizing to the same length twice is resizing once. */
  lemma ResizedIdempotent(c: seq<bool>, n: nat)
    ensures Resized(Resized(c, n), n) == Resized(c, n)
  {
  }

  /** Growing and then shrinking back recovers the log. */
  lemma ResizedGrowShrink(c: seq<bool>, n: nat)
    requires n >= |c|
    ensures Resized(Resized(c, n), |c|) == c
  {
  }

  method ResizeCompleted(c: seq<bool>, n: nat) returns (r: seq<bool>)
    ensures r == Resized(c, n)
  {
    if n == |c| {
      return c;
    }
    r := c;
    if n > |c| {
      while |r| < n
        invariant |c| <= |r| <= n
        invariant r[..|c|] == c
        invariant forall k :: |c| <= k < |r| ==> !r[k]
        decreases n - |r|
      {
        r := r + [false];
      }
    } else {
      r := r[..n];
    }
  }

  function ResizedHabit(h: Habit, n: nat): (r: Habit)
    ensures |r.completed| == n
  {
    h.(completed := Resized(h.completed, n))
  }

  /**
   * The resize effect: every habit's log takes the window's length; the
   * stored streak is left as it was.
   */
  method ResizeEffect(store: AppStore, n: nat)
    modifies store
    ensures store.habits == MapSeq(old(store.habits), (h: Habit) => ResizedHabit(h, n))
    ensures store.tasks == old(store.tasks) && store.expenses == old(store.expenses)
    ensures store.notes == old(store.notes)
  {
    var hs := store.habits;
    var out: seq<Habit> := [];
    for i := 0 to |hs|
      invariant |out| == i
      invariant forall k :: 0 <= k < i ==> out[k] == ResizedHabit(hs[k], n)
      invariant store.habits == hs && store.tasks == old(store.tasks)
      invariant store.expenses == old(store.expenses) && store.notes == old(store.notes)
    {
      var h := hs[i];
      if |h.completed| == n {
        out := out + [h];
      } else {
        var c := ResizeCompleted(h.completed, n);
        out := out + [h.(completed := c)];
      }
    }
    store.habits := out;
  }

  /**
   * While another view has set the span to `year`, `all` or `custom`, the
   * grid's window is empty, so the resize effect empties every log.
   */
  lemma NonGridSpanEmptiesLogs(span: Span, offset: int, today: int, h: Habit)
    requires span != Week && span != Month
    ensures ResizedHabit(h, |WindowDays(span, offset, today)|).completed == []
  {
  }

  // ---------------------------------------------------------------------
  // getCompletionRate (lines 576-591).
  // ---------------------------------------------------------------------

  /** `habit.completed[idx]`, where an index past the end reads undefined. */
  predicate DoneAt(h: Habit, idx: int)
  {
    0 <= idx < |h.completed| && h.completed[idx]
  }

  /** Number of due days in the window. */
  function DueCount(h: Habit, days: seq<string>, parse: string -> Option<int>): (n: nat)
    ensures n <= |days|
  {
    if days == [] then 0
    else DueCount(h, days[..|days|-1], parse)
         + (if IsDue(h.frequency, h.createdAt, days[|days|-1], parse) then 1 else 0)
  }

  /** Number of due days in the window that the log marks done. */
  function DoneDueCount(h: Habit, days: seq<string>, parse: string -> Option<int>): (n: nat)
    ensures n <= DueCount(h, days, parse)
  {
    if days == [] then 0
    else DoneDueCount(h, days[..|days|-1], parse)
         + (if IsDue(h.frequency, h.createdAt, days[|days|-1], parse) && DoneAt(h, |days| - 1) then 1 else 0)
  }

  /** Math.round(c / d * 100), computed exactly: round half up of 100c/d. */
  function RoundPercent(c: nat, d: nat): (p: int)
    requires 0 < d && c <= d
    ensures 0 <= p <= 100
    ensures c == 0 ==> p == 0
    ensures c == d ==> p == 100
    ensures 2 * d * p - d <= 200 * c < 2 * d * p + d
  {
    PercentBounds(c, d);
    (200 * c + d) / (2 * d)
  }

  lemma PercentBounds(c: nat, d: nat)
    requires 0 < d && c <= d
    ensures 0 <= (200 * c + d) / (2 * d) <= 100
    ensures c == d ==> (200 * c + d) / (2 * d) == 100
    ensures var p := (200 * c + d) / (2 * d); 2 * d * p - d <= 200 * c < 2 * d * p + d
  {
    var a, b := 200 * c + d, 2 * d;
    DivBelow(a, b, 101);
    DivBounds(a, b);
    if c == d {
      ModUnique(a, b, 100, d);
    }
  }

  lemma DivBounds(a: int, b: int)
    requires b > 0
    ensures b * (a / b) <= a < b * (a / b) + b
  {
  }

  /** a < b * k bounds the quotient a / b below k. */
  lemma DivBelow(a: int, b: int, k: int)
    requires b > 0 && 0 <= a < b * k
    ensures a / b < k
  {
    var q := a / b;
    assert q * b <= a;
    if q >= k {
      MulMonotone(k, q, b);
    }
  }

  lemma MulMonotone(k: int, q: int, b: int)
    requires k <= q && b > 0
    ensures k * b <= q * b
  {
    if q > k {
      MulAtLeast(q - k, b);
      assert q * b == (q - k) * b + k * b;
    }
  }

  /** The rate over the due days, 0 when no day is due. */
  function CompletionRateOf(h: Habit, days: seq<string>, parse: string -> Option<int>): (rate: int)
    ensures 0 <= rate <= 100
    ensures DueCount(h, days, parse) == 0 ==> rate == 0
    ensures DoneDueCount(h, days, parse) == DueCount(h, days, parse) && rate != 0 ==> rate == 100
  {
    var due := DueCount(h, days, parse);
    if due > 0 then RoundPercent(DoneDueCount(h, days, parse), due) else 0
  }

  /** getCompletionRate: count due and done days in one pass. */
  method GetCompletionRate(h: Habit, days: seq<string>, parse: string -> Option<int>) returns (rate: int)
    ensures rate == CompletionRateOf(h, days, parse)
    ensures 0 <= rate <= 100
  {
    var dueCount := 0;
    var completedCount := 0;
    for idx := 0 to |days|
      invariant dueCount == DueCount(h, days[..idx], parse)
      invariant completedCount == DoneDueCount(h, days[..idx], parse)
    {
      assert days[..idx + 1][..idx] == days[..idx];
      if IsDue(h.frequency, h.createdAt, days[idx], parse) {
        dueCount := dueCount + 1;
        if DoneAt(h, idx) {
          completedCount := completedCount + 1;
        }
      }
    }
    assert days[..|days|] == days;
    rate := if dueCount > 0 then RoundPercent(completedCount, dueCount) else 0;
  }

  /** For a daily habit every day of the window is due. */
  lemma {:induction false} DailyAllDue(h: Habit, days: seq<string>, parse: string -> Option<int>)
    requires h.frequency == 1
    ensures DueCount(h, days, parse) == |days|
  {
    if days != [] { DailyAllDue(h, days[..|days|-1], parse); }
  }

  // ---------------------------------------------------------------------
  // Period navigation and labels (lines 486-509, 661-706).
  // ---------------------------------------------------------------------

  predicate CanGoForward(span: Span, weekOffset: int, monthOffset: int)
  {
    if span == Week then weekOffset < 0 else monthOffset < 0
  }

  predicate CanGoBackward(span: Span, weekOffset: int, monthOffset: int)
  {
    if span == Week then weekOffset > -52 else monthOffset > -24
  }

  /** The offsets the navigation can reach: a year of weeks, two years of months. */
  predicate OffsetsInRange(weekOffset: int, monthOffset: int)
  {
    -52 <= weekOffset <= 0 && -24 <= monthOffset <= 0
  }

  /** Forward is enabled exactly in the past; backward stops at the limit. */
  lemma NavigationLimits(span: Span, w: int, m: int)
    requires OffsetsInRange(w, m)
    ensures !CanGoForward(span, w, m) <==> (if span == Week then w == 0 else m == 0)
    ensures !CanGoBackward(span, w, m) <==> (if span == Week then w == -52 else m == -24)
  {
  }

  /** The shared span and offsets, and the grid's buttons that change them. */
  class PeriodNav {
    var span: Span
    var weekOffset: int
    var monthOffset: int

    constructor()
      ensures span == Month && weekOffset == 0 && monthOffset == 0
    {
      span := Month;
      weekOffset := 0;
      monthOffset := 0;
    }

    predicate Valid()
      reads this
    {
      OffsetsInRange(weekOffset, monthOffset)
    }

    /** "Week View": show the current week. */
    method ShowWeek()
      modifies this
      requires Valid()
      ensures Valid()
      ensures span == Week && weekOffset == 0 && monthOffset == old(monthOffset)
    {
      span := Week;
      weekOffset := 0;
    }

    /** "Month View": show the current month. */
    method ShowMonth()
      modifies this
      requires Valid()
      ensures Valid()
      ensures span == Month && monthOffset == 0 && weekOffset == old(weekOffset)
    {
      span := Month;
      monthOffset := 0;
    }

    /** Another view's span buttons change the span and leave the offsets alone. */
    method SetSpan(s: Span)
      modifies this
      requires Valid()
      ensures Valid()
      ensures span == s && weekOffset == old(weekOffset) && monthOffset == old(monthOffset)
    {
      span := s;
    }

    /** "←", which is disabled unless CanGoBackward. */
    method Previous()
      modifies this
      requires Valid()
      ensures Valid() && span == old(span)
      ensures CanGoBackward(old(span), old(weekOffset), old(monthOffset)) ==>
        if span == Week then weekOffset == old(weekOffset) - 1 && monthOffset == old(monthOffset)
        else monthOffset == old(monthOffset) - 1 && weekOffset == old(weekOffset)
      ensures !CanGoBackward(old(span), old(weekOffset), old(monthOffset)) ==>
        weekOffset == old(weekOffset) && monthOffset == old(monthOffset)
    {
      if CanGoBackward(span, weekOffset, monthOffset) {
        if span == Week {
          weekOffset := weekOffset - 1;
        } else {
          monthOffset := monthOffset - 1;
        }
      }
    }

    /** "→", which is disabled unless CanGoForward. */
    method Next()
      modifies this
      requires Valid()
      ensures Valid() && span == old(span)
      ensures CanGoForward(old(span), old(weekOffset), old(monthOffset)) ==>
        if span == Week then weekOffset == old(weekOffset) + 1 && monthOffset == old(monthOffset)
        else monthOffset == old(monthOffset) + 1 && weekOffset == old(weekOffset)
      ensures !CanGoForward(old(span), old(weekOffset), old(monthOffset)) ==>
        weekOffset == old(weekOffset) && monthOffset == old(monthOffset)
    {
      if CanGoForward(span, weekOffset, monthOffset) {
        if span == Week {
          weekOffset := weekOffset + 1;
        } else {
          monthOffset := monthOffset + 1;
        }
      }
    }
  }

  /**
   * getCurrentPeriodLabel: fixed words at offsets 0 and -1, otherwise the
   * range of the shown week or the shown month (rendered by the locale,
   * which is not modelled). Every span other than `week` is labelled as a
   * month.
   */
  datatype PeriodLabel =
    | ThisWeek | LastWeek | WeekRange(first: int, last: int)
    | ThisMonth | LastMonth | MonthOf(year: int, month: int)

  function CurrentPeriodLabel(span: Span, weekOffset: int, monthOffset: int, today: int): (l: PeriodLabel)
    ensures span == Week ==> (l == ThisWeek <==> weekOffset == 0) && (l == LastWeek <==> weekOffset == -1)
    ensures span != Week ==> (l == ThisMonth <==> monthOffset == 0) && (l == LastMonth <==> monthOffset == -1)
    ensures l.WeekRange? ==> l.first == WeekWindowStart(weekOffset, today) && l.last == l.first + 6
    ensures l.MonthOf? ==> (l.year, l.month) == MonthWindow(monthOffset, today)
  {
    if span == Week then
      if weekOffset == 0 then ThisWeek
      else if weekOffset == -1 then LastWeek
      else
        var s := WeekWindowStart(weekOffset, today);
        WeekRange(s, s + 6)
    else
      if monthOffset == 0 then ThisMonth
      else if monthOffset == -1 then LastMonth
      else
        var ym := MonthWindow(monthOffset, today);
        MonthOf(ym.0, ym.1)
  }

  /** A week range label names the first and last day of the shown window. */
  lemma WeekRangeLabelMatchesWindow(weekOffset: int, monthOffset: int, today: int)
    requires weekOffset != 0 && weekOffset != -1
    ensures var l := CurrentPeriodLabel(Week, weekOffset, monthOffset, today);
            var r := WeekDays(weekOffset, today);
            l.WeekRange? && r[0] == DayKey(l.first) && r[6] == DayKey(l.last)
  {
  }

  // ---------------------------------------------------------------------
  // Adding a habit and editing its frequency (lines 548-574).
  // ---------------------------------------------------------------------

  /** addHabit: a blank name is ignored; the name is sent as typed. */
  function AddHabitName(newHabit: string): (r: Option<string>)
    ensures r.None? <==> IsBlank(newHabit)
    ensures r.Some? ==> r.value == newHabit
  {
    TrimEmptyIffBlank(newHabit);
    if Trim(newHabit) == "" then None else Some(newHabit)
  }

  datatype FrequencyEdit = Cancelled | Rejected | Send(patch: HabitPatch)

  /**
   * changeHabitFrequency: an empty answer cancels; an answer that does not
   * parse as a decimal integer, or is below 1, is rejected; anything else
   * sends the habit with the new frequency.
   */
  function ChangeFrequency(h: Habit, answer: string): (e: FrequencyEdit)
    ensures answer == "" <==> e.Cancelled?
    ensures e.Send? ==> ParseInt(answer, false).Some? && e.patch.frequency == ParseInt(answer, false).value
    ensures e.Send? ==>
      (e.patch.frequency >= 1 && e.patch.name == h.name
       && e.patch.createdAt == h.createdAt && e.patch.completed == h.completed)
    ensures e.Rejected? <==> answer != "" && (ParseInt(answer, false).None? || ParseInt(answer, false).value < 1)
  {
    if answer == "" then Cancelled
    else
      match ParseInt(answer, false)
      case None => Rejected
      case Some(n) => if n < 1 then Rejected else Send(HabitPatch(h.name, n, h.createdAt, h.completed))
  }

  /** Typing a positive number sends exactly that frequency. */
  lemma ChangeFrequencyOfNumber(h: Habit, n: int)
    requires n >= 1
    ensures ChangeFrequency(h, IntToStr(n)) == Send(HabitPatch(h.name, n, h.createdAt, h.completed))
  {
    ParseIntOfIntToStr(n, false);
    assert IntToStr(n) != "" by { assert |NatToStr(n)| >= 1; }
  }

  /** Typing zero or a negative number is refused. */
  lemma ChangeFrequencyRejectsNonPositive(h: Habit, n: int)
    requires n < 1
    ensures ChangeFrequency(h, IntToStr(n)).Rejected?
  {
    ParseIntOfIntToStr(n, false);
    assert IntToStr(n) != "" by {
      if n < 0 { assert IntToStr(n)[0] == '-'; } else { assert |NatToStr(n)| >= 1; }
    }
  }

  // ---------------------------------------------------------------------
  // getFrequencyLabel (lines 593-599).
  // ---------------------------------------------------------------------

  /**
   * The label of a frequency: the words 'Daily' and 'Weekly' for 1 and 7,
   * otherwise the number of days; the cases written out for 2 and 3 read
   * as the general one does.
   */
  function FrequencyLabel(freq: int): (s: string)
    ensures s == "Daily" <==> freq == 1
    ensures s == "Weekly" <==> freq == 7
    ensures freq != 1 && freq != 7 ==> s == "Every " + IntToStr(freq) + " days"
  {
    if freq == 1 then "Daily"
    else if freq == 2 then "Every 2 days"
    else if freq == 3 then "Every 3 days"
    else if freq == 7 then "Weekly"
    else "Every " + IntToStr(freq) + " days"
  }

  // ---------------------------------------------------------------------
  // logAllDueHabits (lines 601-620).
  // ---------------------------------------------------------------------

  /** Array.prototype.indexOf, -1 when absent. */
  function IndexOf(s: seq<string>, x: string): (i: int)
    ensures -1 <= i < |s|
    ensures i >= 0 ==> s[i] == x && forall k :: 0 <= k < i ==> s[k] != x
    ensures i == -1 ==> forall k :: 0 <= k < |s| ==> s[k] != x
  {
    if s == [] then -1
    else if s[0] == x then 0
    else
      var j := IndexOf(s[1..], x);
      if j == -1 then -1 else j + 1
  }

  /** A habit the action logs: due on the UTC date and not yet done at its position. */
  predicate LogEligible(h: Habit, idx: int, utcToday: string, parse: string -> Option<int>)
  {
    idx != -1 && IsDue(h.frequency, h.createdAt, utcToday, parse) && !DoneAt(h, idx)
  }

  /** The habits after the toggles for the first i habits of the snapshot. */
  function LoggedPrefix(snap: seq<Habit>, i: nat, idx: int, utcToday: string, parse: string -> Option<int>): (r: seq<Habit>)
    requires i <= |snap|
    ensures |r| == |snap|
  {
    if i == 0 then snap
    else
      var prev := LoggedPrefix(snap, i - 1, idx, utcToday, parse);
      var h := snap[i - 1];
      if LogEligible(h, idx, utcToday, parse)
      then ReplaceHabits(prev, h.id, (x: Habit) => ToggledHabit(x, NumArg(idx), true))
      else prev
  }

  predicate UniqueHabitIds(hs: seq<Habit>)
  {
    forall i, j :: 0 <= i < j < |hs| ==> hs[i].id != hs[j].id
  }

  /**
   * With unique ids, the action marks today's position done on exactly the
   * eligible habits and leaves every other habit as it was.
   */
  lemma {:induction false} LoggedPrefixAt(snap: seq<Habit>, i: nat, idx: int, utcToday: string,
                                          parse: string -> Option<int>, j: int)
    requires i <= |snap| && UniqueHabitIds(snap) && 0 <= j < |snap|
    ensures LoggedPrefix(snap, i, idx, utcToday, parse)[j]
         == if j < i && LogEligible(snap[j], idx, utcToday, parse) then ToggledHabit(snap[j], NumArg(idx), true) else snap[j]
  {
    if i > 0 {
      LoggedPrefixAt(snap, i - 1, idx, utcToday, parse, j);
      var prev := LoggedPrefix(snap, i - 1, idx, utcToday, parse);
      assert prev[j].id == snap[j].id;
      if j != i - 1 {
        if j < i - 1 { assert snap[j].id != snap[i - 1].id; } else { assert snap[i - 1].id != snap[j].id; }
      }
    }
  }

  /** The habits the action leaves with today's position done. */
  lemma LogAllMarksEligible(snap: seq<Habit>, idx: int, utcToday: string, parse: string -> Option<int>, j: nat)
    requires UniqueHabitIds(snap) && idx >= -1 && j < |snap| && LogEligible(snap[j], idx, utcToday, parse)
    ensures DoneAt(LoggedPrefix(snap, |snap|, idx, utcToday, parse)[j], idx)
  {
    LoggedPrefixAt(snap, |snap|, idx, utcToday, parse, j);
  }

  /**
   * logAllDueHabits: today's position is the index of the UTC date key in the
   * local current week; when it is not there nothing is logged.
   */
  method LogAllDueHabits(store: AppStore, today: int, utcToday: string, parse: string -> Option<int>)
    returns (idx: int)
    modifies store
    ensures idx == IndexOf(WeekDays(0, today), utcToday)
    ensures store.habits == LoggedPrefix(old(store.habits), |old(store.habits)|, idx, utcToday, parse)
    ensures idx == -1 ==> store.habits == old(store.habits)
    ensures store.tasks == old(store.tasks) && store.expenses == old(store.expenses)
    ensures store.notes == old(store.notes)
  {
    var weekDays := GetDaysArray(Week, 0, today);
    idx := IndexOf(weekDays, utcToday);
    var snap := store.habits;
    for i := 0 to |snap|
      invariant store.habits == LoggedPrefix(snap, i, idx, utcToday, parse)
      invariant store.tasks == old(store.tasks) && store.expenses == old(store.expenses)
      invariant store.notes == old(store.notes)
    {
      var h := snap[i];
      if idx != -1 {
        var due := IsDue(h.frequency, h.createdAt, utcToday, parse);
        var already := DoneAt(h, idx);
        if due && !already {
          store.ToggleHabitRemote(h.id, NumArg(idx), true);
        }
      }
    }
    if idx == -1 {
      NothingEligible(snap, |snap|, idx, utcToday, parse);
    }
  }

  lemma {:induction false} NothingEligible(snap: seq<Habit>, i: nat, idx: int, utcToday: string, parse: string -> Option<int>)
    requires i <= |snap| && idx == -1
    ensures LoggedPrefix(snap, i, idx, utcToday, parse) == snap
  {
    if i > 0 { NothingEligible(snap, i - 1, idx, utcToday, parse); }
  }

  // ---------------------------------------------------------------------
  // The confirmation challenge (lines 42-84).
  // ---------------------------------------------------------------------

  /**
   * AuthenticationModal: step 1 asks for num1 + num2, step 2 for an exact
   * sentence, step 3 waits for a countdown of five ticks before the final
   * confirmation is accepted. The two operands are parameters.
   */
  class AuthChallenge {
    var step: int
    var countdown: int
    var mathAnswer: string
    var typedText: string
    const correctAnswer: int
    const requiredText: string

    constructor(habitName: string, num1: int, num2: int)
      ensures Valid() && step == 1 && countdown == 5
      ensures correctAnswer == num1 + num2
      ensures requiredText == "I completed \"" + habitName + "\" today"
      ensures mathAnswer == "" && typedText == ""
    {
      step := 1;
      countdown := 5;
      mathAnswer := "";
      typedText := "";
      correctAnswer := num1 + num2;
      requiredText := "I completed \"" + habitName + "\" today";
    }

    predicate Valid()
      reads this
    {
      1 <= step <= 3 && 0 <= countdown <= 5 && (step < 3 ==> countdown == 5)
    }

    method TypeAnswer(s: string)
      modifies this
      requires Valid()
      ensures Valid() && mathAnswer == s
      ensures step == old(step) && countdown == old(countdown) && typedText == old(typedText)
    {
      mathAnswer := s;
    }

    method TypeText(s: string)
      modifies this
      requires Valid()
      ensures Valid() && typedText == s
      ensures step == old(step) && countdown == old(countdown) && mathAnswer == old(mathAnswer)
    {
      typedText := s;
    }

    /** handleMathSubmit: the answer is cleared either way; a correct one advances. */
    method SubmitMath() returns (alerted: bool)
      modifies this
      requires Valid() && step == 1
      ensures Valid() && mathAnswer == ""
      ensures step == 2 <==> ParseInt(old(mathAnswer), true) == Some(correctAnswer)
      ensures step == 1 <==> alerted
      ensures countdown == old(countdown) && typedText == old(typedText)
    {
      if ParseInt(mathAnswer, true) == Some(correctAnswer) {
        step := 2;
        alerted := false;
      } else {
        alerted := true;
      }
      mathAnswer := "";
    }

    /** handleTextSubmit: only the exact sentence advances; a wrong one is cleared. */
    method SubmitText() returns (alerted: bool)
      modifies this
      requires Valid() && step == 2
      ensures Valid()
      ensures step == 3 <==> old(typedText) == requiredText
      ensures step == 2 <==> alerted
      ensures alerted ==> typedText == ""
      ensures !alerted ==> typedText == old(typedText)
      ensures countdown == old(countdown) && mathAnswer == old(mathAnswer)
    {
      if typedText == requiredText {
        step := 3;
        alerted := false;
      } else {
        alerted := true;
        typedText := "";
      }
    }

    /** One second of the step-3 countdown. */
    method Tick()
      modifies this
      requires Valid()
      ensures Valid() && step == old(step)
      ensures countdown == if step == 3 && old(countdown) > 0 then old(countdown) - 1 else old(countdown)
      ensures mathAnswer == old(mathAnswer) && typedText == old(typedText)
    {
      if step == 3 && countdown > 0 {
        countdown := countdown - 1;
      }
    }

    /** handleFinalConfirm: accepted only once the countdown is over. */
    method FinalConfirm() returns (confirmed: bool)
      requires Valid() && step == 3
      ensures confirmed <==> countdown == 0
    {
      confirmed := countdown == 0;
    }
  }

  // ---------------------------------------------------------------------
  // LogTodayModal (lines 207-262).
  // ---------------------------------------------------------------------

  /** `!!(habit.completedByDate && habit.completedByDate[dayStr])`. */
  predicate CompletedOn(h: Habit, day: string)
  {
    day in h.completedByDate && h.completedByDate[day]
  }

  /** The request kept while the challenge is open. */
  datatype PendingLog = PendingLog(habitId: int, dayIdx: int, habitName: string)

  datatype ToggleOutcome = NotThisWeek | NotDue | AlreadyDone | ChallengeOpened

  class LogTodayModal {
    var authModal: Option<PendingLog>

    constructor()
      ensures authModal.None?
    {
      authModal := None;
    }

    /**
     * handleToggle: refuse when the UTC date is not in the local week or the
     * habit is not due; open the challenge only for a habit not yet done.
     */
    method HandleToggle(h: Habit, today: int, utcToday: string, parse: string -> Option<int>)
      returns (outcome: ToggleOutcome)
      modifies this
      ensures var idx := IndexOf(WeekDays(0, today), utcToday);
        && (outcome == NotThisWeek <==> idx == -1)
        && (outcome == NotDue <==> idx != -1 && !IsDue(h.frequency, h.createdAt, utcToday, parse))
        && (outcome == ChallengeOpened <==>
              idx != -1 && IsDue(h.frequency, h.createdAt, utcToday, parse) && !CompletedOn(h, utcToday))
        && (outcome == ChallengeOpened ==> authModal == Some(PendingLog(h.id, idx, h.name)))
      ensures outcome != ChallengeOpened ==> authModal == old(authModal)
    {
      var days := GetDaysArray(Week, 0, today);
      var todayIdx := IndexOf(days, utcToday);
      if todayIdx == -1 {
        return NotThisWeek;
      }
      if !IsDue(h.frequency, h.createdAt, utcToday, parse) {
        return NotDue;
      }
      if !CompletedOn(h, utcToday) {
        authModal := Some(PendingLog(h.id, todayIdx, h.name));
        outcome := ChallengeOpened;
      } else {
        outcome := AlreadyDone;
      }
    }

    /** handleAuthConfirm: log the pending habit for the UTC date, by key. */
    method HandleAuthConfirm(store: AppStore, utcToday: string)
      modifies this, store
      ensures authModal.None?
      ensures old(authModal).Some? ==>
        store.habits == ReplaceHabits(old(store.habits), old(authModal).value.habitId,
                                      (x: Habit) => ToggledHabit(x, StrArg(utcToday), true))
      ensures old(authModal).None? ==> store.habits == old(store.habits)
      ensures store.tasks == old(store.tasks) && store.expenses == old(store.expenses)
      ensures store.notes == old(store.notes)
    {
      if authModal.Some? {
        store.ToggleHabitRemote(authModal.value.habitId, StrArg(utcToday), true);
        authModal := None;
      }
    }
  }

  /** A date-key confirmation marks the day done and leaves the positional log alone. */
  lemma ConfirmMarksDate(h: Habit, utcToday: string)
    requires '-' in utcToday
    ensures CompletedOn(ToggledHabit(h, StrArg(utcToday), true), utcToday)
    ensures ToggledHabit(h, StrArg(utcToday), true).completed == h.completed
  {
  }

  /** The modal's tests: due today, and due and done today. */
  function DueOn(utcToday: string, parse: string -> Option<int>): Habit -> bool
  {
    (h: Habit) => IsDue(h.frequency, h.createdAt, utcToday, parse)
  }

  function DueAndDoneOn(utcToday: string, parse: string -> Option<int>): Habit -> bool
  {
    (h: Habit) => IsDue(h.frequency, h.createdAt, utcToday, parse) && CompletedOn(h, utcToday)
  }

  /** The modal's first list: exactly the habits due today, in the store's order. */
  function DueHabits(hs: seq<Habit>, utcToday: string, parse: string -> Option<int>): (r: seq<Habit>)
    ensures multiset(r) <= multiset(hs)
    ensures forall i :: 0 <= i < |r| ==> r[i] in hs && IsDue(r[i].frequency, r[i].createdAt, utcToday, parse)
    ensures forall i :: 0 <= i < |hs| && IsDue(hs[i].frequency, hs[i].createdAt, utcToday, parse) ==> hs[i] in r
  {
    Filter(hs, DueOn(utcToday, parse))
  }

  /**
   * The modal's second list: exactly the habits both due and done today, in
   * the store's order.
   */
  function CompletedToday(hs: seq<Habit>, utcToday: string, parse: string -> Option<int>): (r: seq<Habit>)
    ensures r == Filter(hs, DueAndDoneOn(utcToday, parse))
    ensures |r| <= |DueHabits(hs, utcToday, parse)| <= |hs|
    ensures forall i :: 0 <= i < |r| ==>
      r[i] in hs && IsDue(r[i].frequency, r[i].createdAt, utcToday, parse) && CompletedOn(r[i], utcToday)
    ensures forall i :: 0 <= i < |hs| && DueAndDoneOn(utcToday, parse)(hs[i]) ==> hs[i] in r
  {
    FilterFilter(hs, DueOn(utcToday, parse), (h: Habit) => CompletedOn(h, utcToday), DueAndDoneOn(utcToday, parse));
    Filter(DueHabits(hs, utcToday, parse), (h: Habit) => CompletedOn(h, utcToday))
  }
}
