// The statistics panel of src/features/habits/Habits.jsx: the shown days,
// the per-habit completion row over them, the trailing streak of each habit,
// the longest and the rounded average streak, the total number of
// completions and the per-day trend, whose entries add up to that total.

module HabitsView {
  import opened Common
  import opened Dates
  import opened Store
  import opened HabitGrid

  /** The days the panel shows: the week window for 'week', else the month window. */
  function ShownDays(span: Span, weekOffset: int, monthOffset: int, today: int): (r: seq<string>)
    ensures span == Week ==> r == WindowDays(Week, weekOffset, today)
    ensures span != Week ==> r == WindowDays(Month, monthOffset, today)
  {
    if span == Week then WeekDays(weekOffset, today) else MonthDays(monthOffset, today)
  }

  /**
   * The panel's own `getDaysArray`: any span other than 'week' yields the
   * month window, where the grid's version yields no days at all.
   */
  method GetDaysArray(week: bool, offset: int, today: int) returns (days: seq<string>)
    ensures week ==> days == WindowDays(Week, offset, today)
    ensures !week ==> days == WindowDays(Month, offset, today)
  {
    if week {
      days := PushKeys(7, WeekWindowStart(offset, today), DayKey);
    } else {
      var ym := MonthWindow(offset, today);
      days := PushKeys(DaysInMonth(ym.0, ym.1), 1, (d: int) => DateKey(Civil(ym.0, ym.1, d)));
    }
  }

  /** The week and month panels show exactly the grid's windows. */
  lemma ShownDaysAreGridWindow(span: Span, weekOffset: int, monthOffset: int, today: int)
    ensures span == Week ==> |ShownDays(span, weekOffset, monthOffset, today)| == 7
    ensures span != Week ==>
      var ym := MonthWindow(monthOffset, today);
      |ShownDays(span, weekOffset, monthOffset, today)| == DaysInMonth(ym.0, ym.1)
  {
    if span != Week {
      MonthWindowDays(monthOffset, today);
    }
  }

  /** `!!(habit.completedByDate && habit.completedByDate[day])`. */
  predicate DoneOn(h: Habit, day: string)
  {
    day in h.completedByDate && h.completedByDate[day]
  }

  /** completedArrayForHabit: one entry per shown day, true iff the habit was done that day. */
  function CompletedArray(days: seq<string>, h: Habit): (r: seq<bool>)
    ensures |r| == |days|
    ensures forall i :: 0 <= i < |days| ==> (r[i] <==> DoneOn(h, days[i]))
  {
    seq(|days|, i requires 0 <= i < |days| => DoneOn(h, days[i]))
  }

  lemma CompletedArraySnoc(days: seq<string>, d: string, h: Habit)
    ensures CompletedArray(days + [d], h) == CompletedArray(days, h) + [DoneOn(h, d)]
  {
    assert CompletedArray(days + [d], h)[..|days|] == CompletedArray(days, h);
  }

  // ---------------------------------------------------------------------
  // Streaks.
  // ---------------------------------------------------------------------

  /**
   * The streak of a habit over the shown days: the number of final days all
   * done, stopped by the last day not done.
   */
  function StreakOf(h: Habit, days: seq<string>): (n: nat)
    ensures n <= |days|
    ensures forall k :: |days| - n <= k < |days| ==> DoneOn(h, days[k])
    ensures n < |days| ==> !DoneOn(h, days[|days| - 1 - n])
  {
    TrailingRun(CompletedArray(days, h))
  }

  /** habitsWithStreaks: every habit with its streak over the shown days. */
  method HabitsWithStreaks(hs: seq<Habit>, days: seq<string>) returns (r: seq<Habit>)
    ensures |r| == |hs|
    ensures forall i :: 0 <= i < |hs| ==> r[i] == hs[i].(streak := Some(StreakOf(hs[i], days)))
  {
    r := [];
    for i := 0 to |hs|
      invariant |r| == i
      invariant forall k :: 0 <= k < i ==> r[k] == hs[k].(streak := Some(StreakOf(hs[k], days)))
    {
      var arr := CompletedArray(days, hs[i]);
      var streak := ComputeStreak(arr);
      r := r + [hs[i].(streak := Some(streak))];
    }
  }

  /** The streaks of the habits, in habit order. */
  function Streaks(hs: seq<Habit>, days: seq<string>): (r: seq<nat>)
    ensures |r| == |hs| && forall i :: 0 <= i < |hs| ==> r[i] == StreakOf(hs[i], days)
  {
    seq(|hs|, i requires 0 <= i < |hs| => StreakOf(hs[i], days))
  }

  /** `Math.max(...s)`, and 0 for no habits. */
  function MaxOf(s: seq<nat>): (m: nat)
    ensures forall i :: 0 <= i < |s| ==> s[i] <= m
    ensures s == [] ==> m == 0
    ensures s != [] ==> m in s
  {
    if s == [] then 0
    else
      var m' := MaxOf(s[..|s|-1]);
      if s[|s|-1] > m' then s[|s|-1] else m'
  }

  function SumNat(s: seq<nat>): nat
  {
    if s == [] then 0 else SumNat(s[..|s|-1]) + s[|s|-1]
  }

  /** Every element at most m bounds the sum by |s| * m. */
  lemma {:induction false} SumAtMost(s: seq<nat>, m: nat)
    requires forall i :: 0 <= i < |s| ==> s[i] <= m
    ensures SumNat(s) <= |s| * m
  {
    if s != [] {
      SumAtMost(s[..|s|-1], m);
      assert |s| * m == (|s| - 1) * m + m;
    }
  }

  /** `Math.round(total / n)` for n > 0 (halves round up), and 0 for no habits. */
  function RoundedMean(total: nat, n: nat): (r: nat)
    ensures n == 0 ==> r == 0
    ensures n > 0 ==> 2 * n * r - n <= 2 * total < 2 * n * r + n
  {
    if n == 0 then 0
    else
      DivBounds(2 * total + n, 2 * n);
      (2 * total + n) / (2 * n)
  }

  /** longestStreak. */
  function LongestStreak(hs: seq<Habit>, days: seq<string>): (m: nat)
    ensures forall i :: 0 <= i < |hs| ==> StreakOf(hs[i], days) <= m
    ensures hs == [] ==> m == 0
    ensures hs != [] ==> exists i :: 0 <= i < |hs| && m == StreakOf(hs[i], days)
    ensures m <= |days|
  {
    var s := Streaks(hs, days);
    var m := MaxOf(s);
    assert hs != [] ==> s[|s| - 1] <= m && exists i :: 0 <= i < |s| && s[i] == m;
    m
  }

  /** avgStreak. */
  function AverageStreak(hs: seq<Habit>, days: seq<string>): (a: nat)
    ensures hs == [] ==> a == 0
  {
    RoundedMean(SumNat(Streaks(hs, days)), |hs|)
  }

  /** The rounded average never exceeds the longest streak. */
  lemma AverageAtMostLongest(hs: seq<Habit>, days: seq<string>)
    ensures AverageStreak(hs, days) <= LongestStreak(hs, days)
  {
    var s, m := Streaks(hs, days), LongestStreak(hs, days);
    if hs != [] {
      SumAtMost(s, m);
      MeanAtMost(SumNat(s), |hs|, m);
    }
  }

  lemma MeanAtMost(total: nat, n: nat, m: nat)
    requires n > 0 && total <= n * m
    ensures RoundedMean(total, n) <= m
  {
    var a := 2 * total + n;
    assert a < 2 * n * (m + 1) by {
      assert 2 * n * (m + 1) == 2 * (n * m) + 2 * n;
    }
    DivBelow(a, 2 * n, m + 1);
  }

  /** When every habit has the same streak, that is the average. */
  lemma AverageOfEqualStreaks(hs: seq<Habit>, days: seq<string>, k: nat)
    requires hs != []
    requires forall i :: 0 <= i < |hs| ==> StreakOf(hs[i], days) == k
    ensures AverageStreak(hs, days) == k
  {
    var s := Streaks(hs, days);
    SumOfEqual(s, k);
    MeanOfEqual(|hs|, k);
  }

  lemma MeanOfEqual(n: nat, k: nat)
    requires n > 0
    ensures RoundedMean(n * k, n) == k
  {
    assert 2 * (n * k) + n == k * (2 * n) + n;
    ModUnique(2 * (n * k) + n, 2 * n, k, n);
  }

  lemma {:induction false} SumOfEqual(s: seq<nat>, k: nat)
    requires forall i :: 0 <= i < |s| ==> s[i] == k
    ensures SumNat(s) == |s| * k
  {
    if s != [] {
      SumOfEqual(s[..|s|-1], k);
      assert |s| * k == (|s| - 1) * k + k;
    }
  }

  // ---------------------------------------------------------------------
  // Completions and the trend.
  // ---------------------------------------------------------------------

  /** `arr.filter(Boolean).length`. */
  function CountTrue(c: seq<bool>): (n: nat)
    ensures n <= |c|
  {
    if c == [] then 0 else CountTrue(c[..|c|-1]) + (if c[|c|-1] then 1 else 0)
  }

  /** completedDays of one habit; never more than the totalDays shown. */
  function DoneDays(h: Habit, days: seq<string>): (n: nat)
    ensures n <= |days|
    ensures n == |days| <==> forall i :: 0 <= i < |days| ==> DoneOn(h, days[i])
  {
    AllTrueIffCountFull(CompletedArray(days, h));
    CountTrue(CompletedArray(days, h))
  }

  lemma {:induction false} AllTrueIffCountFull(c: seq<bool>)
    ensures CountTrue(c) == |c| <==> forall i :: 0 <= i < |c| ==> c[i]
  {
    if c != [] {
      AllTrueIffCountFull(c[..|c|-1]);
      assert forall i :: 0 <= i < |c| - 1 ==> c[..|c|-1][i] == c[i];
    }
  }

  lemma DoneDaysSnoc(h: Habit, days: seq<string>, d: string)
    ensures DoneDays(h, days + [d]) == DoneDays(h, days) + (if DoneOn(h, d) then 1 else 0)
  {
    CompletedArraySnoc(days, d, h);
    assert (CompletedArray(days, h) + [DoneOn(h, d)])[..|days|] == CompletedArray(days, h);
  }

  /** totalCompletions: the completed days summed over the habits. */
  function TotalCompletions(hs: seq<Habit>, days: seq<string>): (n: nat)
    ensures n <= |hs| * |days|
  {
    if hs == [] then 0
    else
      var n' := TotalCompletions(hs[..|hs|-1], days);
      assert |hs| * |days| == (|hs| - 1) * |days| + |days|;
      n' + DoneDays(hs[|hs|-1], days)
  }

  /** The number of habits done on one day. */
  function DoneHabits(hs: seq<Habit>, d: string): (n: nat)
    ensures n <= |hs|
  {
    if hs == [] then 0 else DoneHabits(hs[..|hs|-1], d) + (if DoneOn(hs[|hs|-1], d) then 1 else 0)
  }

  datatype TrendPoint = TrendPoint(day: int, completions: nat)

  /** trendData: per shown day, its 1-based number and how many habits were done on it. */
  function Trend(hs: seq<Habit>, days: seq<string>): (r: seq<TrendPoint>)
    ensures hs == [] ==> r == []
    ensures hs != [] ==> |r| == |days|
    ensures hs != [] ==> forall i :: 0 <= i < |days| ==>
      r[i].day == i + 1 && r[i].completions == DoneHabits(hs, days[i])
  {
    if hs == [] then []
    else seq(|days|, i requires 0 <= i < |days| => TrendPoint(i + 1, DoneHabits(hs, days[i])))
  }

  function SumCompletions(t: seq<TrendPoint>): nat
  {
    if t == [] then 0 else SumCompletions(t[..|t|-1]) + t[|t|-1].completions
  }

  /** The per-day counts of the days, summed. */
  function ColumnSum(hs: seq<Habit>, days: seq<string>): nat
  {
    if days == [] then 0 else ColumnSum(hs, days[..|days|-1]) + DoneHabits(hs, days[|days|-1])
  }

  lemma {:induction false} TrendSumIsColumnSum(hs: seq<Habit>, days: seq<string>)
    requires hs != []
    ensures SumCompletions(Trend(hs, days)) == ColumnSum(hs, days)
  {
    if days != [] {
      var p := days[..|days|-1];
      TrendSumIsColumnSum(hs, p);
      assert Trend(hs, days)[..|p|] == Trend(hs, p);
    }
  }

  /** Adding one habit adds its completed days to the column sum. */
  lemma {:induction false} ColumnSumAddHabit(hs: seq<Habit>, h: Habit, days: seq<string>)
    ensures ColumnSum(hs + [h], days) == ColumnSum(hs, days) + DoneDays(h, days)
  {
    if days != [] {
      var p, d := days[..|days|-1], days[|days|-1];
      ColumnSumAddHabit(hs, h, p);
      assert (hs + [h])[..|hs|] == hs;
      DoneDaysSnoc(h, p, d);
      assert p + [d] == days;
    } else {
      assert CompletedArray(days, h) == [];
    }
  }

  lemma {:induction false} ColumnSumIsTotal(hs: seq<Habit>, days: seq<string>)
    ensures ColumnSum(hs, days) == TotalCompletions(hs, days)
  {
    if hs == [] {
      ColumnSumOfNone(days);
    } else {
      var p := hs[..|hs|-1];
      ColumnSumIsTotal(p, days);
      ColumnSumAddHabit(p, hs[|hs|-1], days);
      assert p + [hs[|hs|-1]] == hs;
    }
  }

  lemma {:induction false} ColumnSumOfNone(days: seq<string>)
    ensures ColumnSum([], days) == 0
  {
    if days != [] {
      ColumnSumOfNone(days[..|days|-1]);
    }
  }

  /** The trend's daily completions add up to the total completions. */
  lemma TrendAddsUpToTotal(hs: seq<Habit>, days: seq<string>)
    ensures SumCompletions(Trend(hs, days)) == TotalCompletions(hs, days)
  {
    if hs != [] {
      TrendSumIsColumnSum(hs, days);
      ColumnSumIsTotal(hs, days);
    }
  }
}
