// The overview aggregates of src/features/dashboard/Dashboard.jsx: the number
// of quadrant tasks, the signed total and the most expensive
// category of the selected span, the longest streak, the bar chart's
// categories and amounts, and the three habit rows. Every aggregate is a
// pure function of the store's collections; the span filter is
// `Store.FilterBySpan` through `Expenses.InPeriod`.

module Dashboard {
  import opened Common
  import opened Store
  import opened Expenses
  import opened HabitsView

  const AllQuadrants: seq<Quadrant> := [UrgentImportant, NotUrgentImportant, UrgentNotImportant, NotUrgentNotImportant]

  // ---------------------------------------------------------------------
  // tasksAdded (line 44).
  // ---------------------------------------------------------------------

  function ListLength(b: Buckets): Quadrant -> int
  {
    (q: Quadrant) => |b.Get(q)|
  }

  /** `Object.values(tasks).reduce((sum, list) => sum + list.length, 0)`. */
  function TasksAdded(b: Buckets): (n: int)
    ensures n == |b.ui| + |b.nui| + |b.uni| + |b.nuni|
  {
    var f := ListLength(b);
    var q3 := [UrgentImportant, NotUrgentImportant, UrgentNotImportant];
    var q2 := [UrgentImportant, NotUrgentImportant];
    assert AllQuadrants[..3] == q3 && q3[..2] == q2 && q2[..1] == [UrgentImportant];
    assert Sum([UrgentImportant], f) == |b.ui| by {
      assert [UrgentImportant][..0] == [];
    }
    assert Sum(q2, f) == |b.ui| + |b.nui|;
    assert Sum(q3, f) == |b.ui| + |b.nui| + |b.uni|;
    Sum(AllQuadrants, f)
  }

  /** Moving a task between quadrants does not change the count. */
  lemma TasksAddedAfterMove(bk: Buckets, from: Quadrant, id: int, to: Quadrant)
    requires UniqueTaskIds(bk.Get(from))
    ensures TasksAdded(Moved(bk, from, id, to)) == TasksAdded(bk)
  {
    MovedTotal(bk, from, id, to);
  }

  /** After a load, the count is the number of documents with a recognised quadrant. */
  lemma TasksAddedAfterLoad(all: seq<ServerTask>)
    ensures TasksAdded(Grouped(all)) == Count(all, (t: ServerTask) => BucketOf(t).Some?)
    ensures TasksAdded(Grouped(all)) <= |all|
  {
    GroupedTotal(all);
  }

  // ---------------------------------------------------------------------
  // thisPeriodExpenses (lines 43-45).
  // ---------------------------------------------------------------------

  function Amount(e: Expense): int
  {
    e.amount
  }

  /** What an expense adds to the income: its amount if it is income. */
  function IncomeWeight(e: Expense): int
  {
    if e.amount > 0 then e.amount else 0
  }

  /** The signed sum of the amounts of the span's expenses. */
  function ThisPeriodExpenses(es: seq<Expense>, span: Span, now: int, parseDate: string -> Option<int>): int
  {
    Sum(InPeriod(es, span, now, parseDate), Amount)
  }

  lemma {:induction false} SignedSumSplits(s: seq<Expense>)
    ensures Sum(s, Amount) == Sum(s, IncomeWeight) - Sum(s, SpendWeight)
  {
    if s != [] {
      SignedSumSplits(s[..|s| - 1]);
    }
  }

  /**
   * The signed figure is the span's income less the spending total that
   * the expense page shows; so it is never more than the income.
   */
  lemma ThisPeriodIsIncomeLessSpending(es: seq<Expense>, span: Span, now: int, parseDate: string -> Option<int>)
    ensures ThisPeriodExpenses(es, span, now, parseDate)
         == Sum(InPeriod(es, span, now, parseDate), IncomeWeight) - TotalSpent(es, span, now, parseDate)
    ensures ThisPeriodExpenses(es, span, now, parseDate) <= Sum(InPeriod(es, span, now, parseDate), IncomeWeight)
  {
    SignedSumSplits(InPeriod(es, span, now, parseDate));
  }

  // ---------------------------------------------------------------------
  // mostExpensiveCategory (line 48).
  // ---------------------------------------------------------------------

  /**
   * The position `reduce((a, b) => |a| > |b| ? a : b)` ends on: an
   * expense of the largest size, and the last such one, since a tie
   * keeps the later `b`.
   */
  function LargestAt(s: seq<Expense>): (k: nat)
    requires s != []
    ensures k < |s|
    ensures forall j :: 0 <= j < |s| ==> Abs(s[j].amount) <= Abs(s[k].amount)
    ensures forall j :: k < j < |s| ==> Abs(s[j].amount) < Abs(s[k].amount)
  {
    if |s| == 1 then 0
    else
      var a := LargestAt(s[..|s| - 1]);
      assert forall j :: 0 <= j < |s| - 1 ==> s[..|s| - 1][j] == s[j];
      if Abs(s[a].amount) > Abs(s[|s| - 1].amount) then a else |s| - 1
  }

  /** The category shown, or None for the '-' of an empty span. */
  function MostExpensiveCategory(es: seq<Expense>, span: Span, now: int, parseDate: string -> Option<int>): (r: Option<CategoryRef>)
    ensures r.None? <==> InPeriod(es, span, now, parseDate) == []
    ensures r.Some? ==> exists e :: (e in InPeriod(es, span, now, parseDate) && e.category == r.value
      && forall x :: x in InPeriod(es, span, now, parseDate) ==> Abs(x.amount) <= Abs(e.amount))
  {
    var period := InPeriod(es, span, now, parseDate);
    if period == [] then None
    else
      var k := LargestAt(period);
      assert period[k] in period;
      Some(period[k].category)
  }

  /** Ties go to the later expense: of two equally large ones, the second is shown. */
  lemma TieGoesToLater(a: Expense, b: Expense)
    requires Abs(a.amount) == Abs(b.amount)
    ensures LargestAt([a, b]) == 1
  {
    var s := [a, b];
    assert s[..1] == [a];
  }

  // ---------------------------------------------------------------------
  // longestHabitStreak (line 49).
  // ---------------------------------------------------------------------

  /** `h.streak ?? 0`. */
  function StreakOrZero(h: Habit): nat
  {
    if h.streak.Some? then h.streak.value else 0
  }

  /** `habits.length ? Math.max(...habits.map(h => h.streak ?? 0)) : 0`. */
  function LongestHabitStreak(hs: seq<Habit>): (n: nat)
    ensures forall i :: 0 <= i < |hs| ==> StreakOrZero(hs[i]) <= n
    ensures hs == [] ==> n == 0
    ensures hs != [] ==> exists i :: 0 <= i < |hs| && StreakOrZero(hs[i]) == n
  {
    if hs == [] then 0
    else
      var m := LongestHabitStreak(hs[..|hs| - 1]);
      var last := StreakOrZero(hs[|hs| - 1]);
      assert forall i :: 0 <= i < |hs| - 1 ==> hs[..|hs| - 1][i] == hs[i];
      if |hs| == 1 then last
      else if m >= last then m else last
  }

  // ---------------------------------------------------------------------
  // The average streak tile (line 47): the store's avgStreak
  // (src/context/AppContext.jsx line 122), over all habits.
  // ---------------------------------------------------------------------

  /** `h.streak ?? computeStreak(h.completed || [])`. */
  function StreakOrRun(h: Habit): nat
  {
    if h.streak.Some? then h.streak.value else TrailingRun(h.completed)
  }

  function StoredStreaks(hs: seq<Habit>): (r: seq<nat>)
    ensures |r| == |hs| && forall i :: 0 <= i < |hs| ==> r[i] == StreakOrRun(hs[i])
  {
    seq(|hs|, i requires 0 <= i < |hs| => StreakOrRun(hs[i]))
  }

  /** The rounded mean of the habits' streaks, 0 for no habits. */
  function OverallAvgStreak(hs: seq<Habit>): (a: nat)
    ensures hs == [] ==> a == 0
    ensures hs != [] ==> 2 * |hs| * a - |hs| <= 2 * SumNat(StoredStreaks(hs)) < 2 * |hs| * a + |hs|
  {
    RoundedMean(SumNat(StoredStreaks(hs)), |hs|)
  }

  /**
   * When a habit without a stored streak has no trailing run (as a habit
   * fresh from addHabitRemote), the two tiles use the same streaks, and
   * the average tile never exceeds the longest-streak tile.
   */
  lemma AvgStreakAtMostLongest(hs: seq<Habit>)
    requires forall i :: 0 <= i < |hs| && hs[i].streak.None? ==> TrailingRun(hs[i].completed) == 0
    ensures OverallAvgStreak(hs) <= LongestHabitStreak(hs)
  {
    var s, m := StoredStreaks(hs), LongestHabitStreak(hs);
    if hs != [] {
      forall i | 0 <= i < |s| ensures s[i] <= m {
        assert s[i] == StreakOrZero(hs[i]);
      }
      SumAtMost(s, m);
      MeanAtMost(SumNat(s), |hs|, m);
    }
  }

  // ---------------------------------------------------------------------
  // chartCategories and chartData (lines 52-59).
  // ---------------------------------------------------------------------

  /** A bar of the chart; the fallback categories carry the grey and no budget. */
  datatype ChartCategory = ChartCategory(name: CategoryRef, color: string, budget: int)

  function AsChartCategory(c: FinanceCategory): ChartCategory
  {
    ChartCategory(ByName(c.name), c.color, c.budget)
  }

  function FallbackChartCategory(name: CategoryRef): ChartCategory
  {
    ChartCategory(name, FallbackColor, 0)
  }

  /** One grey bar per distinct category value of the expenses, in first-occurrence order. */
  function FallbackCategories(period: seq<Expense>): (r: seq<ChartCategory>)
    ensures forall i :: 0 <= i < |r| ==> r[i].color == FallbackColor && r[i].budget == 0
    ensures forall i, j :: 0 <= i < j < |r| ==> r[i].name != r[j].name
  {
    var names := Distinct(MapSeq(period, CategoryOf));
    var r := MapSeq(names, FallbackChartCategory);
    assert forall i :: 0 <= i < |r| ==> r[i].name == names[i];
    r
  }

  /** Every expense's category has a fallback bar. */
  lemma FallbackHasBar(period: seq<Expense>, k: nat)
    requires k < |period|
    ensures exists i :: 0 <= i < |FallbackCategories(period)| && FallbackCategories(period)[i].name == period[k].category
  {
    var m := MapSeq(period, CategoryOf);
    var names := Distinct(m);
    assert m[k] == period[k].category;
    assert m[k] in names;
    var i :| 0 <= i < |names| && names[i] == m[k];
    assert FallbackCategories(period)[i].name == names[i];
  }

  /** Every fallback bar names the category of some expense. */
  lemma BarHasExpense(period: seq<Expense>, i: nat)
    requires i < |FallbackCategories(period)|
    ensures exists k :: 0 <= k < |period| && period[k].category == FallbackCategories(period)[i].name
  {
    var m := MapSeq(period, CategoryOf);
    var names := Distinct(m);
    assert FallbackCategories(period)[i].name == names[i];
    assert names[i] in m;
    var k :| 0 <= k < |m| && m[k] == names[i];
    assert period[k].category == names[i];
  }

  /**
   * chartCategories: the finance categories, by name, when there are any;
   * otherwise the fallback bars of the span's expenses.
   */
  function ChartCategories(cats: seq<FinanceCategory>, es: seq<Expense>, span: Span, now: int,
                           parseDate: string -> Option<int>): (r: seq<ChartCategory>)
    ensures cats != [] ==> |r| == |cats| && forall i :: 0 <= i < |cats| ==> r[i] == AsChartCategory(cats[i])
    ensures cats == [] ==> r == FallbackCategories(InPeriod(es, span, now, parseDate))
  {
    if cats != [] then MapSeq(cats, AsChartCategory)
    else FallbackCategories(InPeriod(es, span, now, parseDate))
  }

  /** What an expense adds to its bar: the size of its amount. */
  function BarWeight(e: Expense): int
  {
    Abs(e.amount)
  }

  function FiledAs(name: CategoryRef): Expense -> bool
  {
    (e: Expense) => e.category == name
  }

  /** One bar: the sizes of the span's expenses filed exactly under the bar's name, summed. */
  function BarAmount(period: seq<Expense>, name: CategoryRef): (n: int)
    ensures n >= 0
  {
    SumNonNegative(Filter(period, FiledAs(name)), BarWeight);
    Sum(Filter(period, FiledAs(name)), BarWeight)
  }

  datatype Bar = Bar(category: CategoryRef, amount: int)

  /** chartData: one bar per chart category, in the same order. */
  function ChartData(cats: seq<FinanceCategory>, es: seq<Expense>, span: Span, now: int,
                     parseDate: string -> Option<int>): (r: seq<Bar>)
    ensures |r| == |ChartCategories(cats, es, span, now, parseDate)|
    ensures forall i :: 0 <= i < |r| ==>
      r[i].category == ChartCategories(cats, es, span, now, parseDate)[i].name
      && r[i].amount == BarAmount(InPeriod(es, span, now, parseDate), r[i].category) && r[i].amount >= 0
  {
    var period := InPeriod(es, span, now, parseDate);
    MapSeq(ChartCategories(cats, es, span, now, parseDate), (c: ChartCategory) => Bar(c.name, BarAmount(period, c.name)))
  }

  /**
   * With the fallback categories every expense of the span lands in
   * exactly one bar, so the bars add up to the span's total size.
   */
  lemma FallbackBarsAddUp(es: seq<Expense>, span: Span, now: int, parseDate: string -> Option<int>)
    ensures var period := InPeriod(es, span, now, parseDate);
      SumOverKeys(Distinct(MapSeq(period, CategoryOf)), period, CategoryOf, BarWeight) == Sum(period, BarWeight)
  {
    GroupedSumIsTotal(InPeriod(es, span, now, parseDate), CategoryOf, BarWeight);
  }

  function BarWeightIn(name: CategoryRef): Expense -> int
  {
    (e: Expense) => if e.category == name then BarWeight(e) else 0
  }

  lemma {:induction false} WeightInIsSumWhere(period: seq<Expense>, name: CategoryRef)
    ensures Sum(period, BarWeightIn(name)) == SumWhere(period, CategoryOf, name, BarWeight)
  {
    if period != [] {
      WeightInIsSumWhere(period[..|period| - 1], name);
    }
  }

  /** A bar's amount is the per-key sum that the grouping lemma adds up. */
  lemma BarAmountIsSumWhere(period: seq<Expense>, name: CategoryRef)
    ensures BarAmount(period, name) == SumWhere(period, CategoryOf, name, BarWeight)
  {
    SumOfFilter(period, FiledAs(name), BarWeight, BarWeightIn(name));
    WeightInIsSumWhere(period, name);
  }

  // ---------------------------------------------------------------------
  // Today's habits (lines 190-193).
  // ---------------------------------------------------------------------

  /** One row: `done / total` days of the habit's positional log. */
  datatype HabitRow = HabitRow(name: string, done: nat, total: nat)

  function RowOf(h: Habit): HabitRow
  {
    HabitRow(h.name, CountTrue(h.completed), |h.completed|)
  }

  /** `habits.slice(0, 3).map(...)`: the first three habits, each done no more than its total. */
  function TodaysHabits(hs: seq<Habit>): (r: seq<HabitRow>)
    ensures |r| <= 3 && |r| == if |hs| < 3 then |hs| else 3
    ensures forall i :: 0 <= i < |r| ==> r[i].name == hs[i].name && r[i].total == |hs[i].completed|
    ensures forall i :: 0 <= i < |r| ==> r[i].done == CountTrue(hs[i].completed) <= r[i].total
  {
    MapSeq(if |hs| < 3 then hs else hs[..3], RowOf)
  }
}
