// The Eisenhower board of src/features/tasks/Quadrants.jsx: when a task is
// due, how its deadline is coloured and worded, the board's counters, the
// completion filter, dropping a dragged task and the add/edit validation.
//
// Instants are milliseconds with the local zone taken as UTC, as in the rest
// of the model; `parseDate` is `new Date(deadline)` (None for an Invalid
// Date) and `shortDate` is `toLocaleDateString('en-US', ...)`.

module Quadrants {
  import opened Common
  import opened Dates
  import opened Store

  const MsPerHour := 3600000
  const MsPerMinute := 60000

  /** A deadline's distance in days: none set, an Invalid Date (NaN), or whole days ahead. */
  datatype Due = NoDeadline | Invalid | DueIn(days: int)

  /**
   * `deadline.setHours(parseInt(hours), parseInt(minutes))`: the same day
   * at that hour and minute, keeping seconds and milliseconds; a part that
   * does not read as a number gives an Invalid Date.
   */
  function WithTime(d: int, time: string): (r: Option<int>)
    ensures var parts := Split(time, ':');
      r.Some? <==> |parts| >= 2 && ParseInt(parts[0], true).Some? && ParseInt(parts[1], true).Some?
    ensures r.Some? ==> var parts := Split(time, ':');
      r.value == AtTime(d, ParseInt(parts[0], true).value, ParseInt(parts[1], true).value)
  {
    var parts := Split(time, ':');
    if |parts| < 2 then None
    else
      match (ParseInt(parts[0], true), ParseInt(parts[1], true))
      case (Some(h), Some(m)) => Some(AtTime(d, h, m))
      case _ => None
  }

  /** The instant on d's day at h:m, with d's seconds and milliseconds. */
  function AtTime(d: int, h: int, m: int): int
  {
    d - d % MsPerDay + h * MsPerHour + m * MsPerMinute + d % MsPerMinute
  }

  /** An hour and minute on the clock keep the day and set the time of day. */
  lemma AtTimeSameDay(d: int, h: int, m: int)
    requires 0 <= h < 24 && 0 <= m < 60
    ensures AtTime(d, h, m) / MsPerDay == d / MsPerDay
    ensures AtTime(d, h, m) % MsPerDay == h * MsPerHour + m * MsPerMinute + d % MsPerMinute
  {
    var r := h * MsPerHour + m * MsPerMinute + d % MsPerMinute;
    assert 0 <= r < MsPerDay;
    assert d - d % MsPerDay == (d / MsPerDay) * MsPerDay;
    ModUnique(AtTime(d, h, m), MsPerDay, d / MsPerDay, r);
  }

  /** The deadline instant: the date, moved to the time of day when one is given. */
  function DeadlineInstant(deadline: string, time: string, parseDate: string -> Option<int>): Option<int>
  {
    match parseDate(deadline)
    case None => None
    case Some(d) => if time == "" then Some(d) else WithTime(d, time)
  }

  /** getDaysUntilDeadline: the days left, rounded up; none without a deadline. */
  function DaysUntil(deadline: string, time: string, now: int, parseDate: string -> Option<int>): (r: Due)
    ensures deadline == "" <==> r == NoDeadline
    ensures r.DueIn? ==> (DeadlineInstant(deadline, time, parseDate).Some?
      && var t := DeadlineInstant(deadline, time, parseDate).value;
      (r.days - 1) * MsPerDay < t - now <= r.days * MsPerDay)
    ensures r == Invalid <==> deadline != "" && DeadlineInstant(deadline, time, parseDate).None?
  {
    if deadline == "" then NoDeadline
    else match DeadlineInstant(deadline, time, parseDate)
      case None => Invalid
      case Some(t) => DueIn(CeilDiv(t - now, MsPerDay))
  }

  /** A deadline later today (or now) is due in 0 days; one a full day ahead or more is due later. */
  lemma DueTodayMeansWithinADay(deadline: string, time: string, now: int, parseDate: string -> Option<int>)
    requires DaysUntil(deadline, time, now, parseDate).DueIn?
    ensures var r := DaysUntil(deadline, time, now, parseDate);
      var t := DeadlineInstant(deadline, time, parseDate).value;
      (r.days == 0 <==> -MsPerDay < t - now <= 0) && (r.days < 0 <==> t - now <= -MsPerDay)
  {
  }

  const Grey := "#6c757d"
  const Red := "#dc3545"
  const Orange := "#fd7e14"
  const Yellow := "#ffc107"
  const Green := "#28a745"

  /** getDeadlineColor. An Invalid Date fails every comparison and comes out green. */
  function DeadlineColor(d: Due): (c: string)
    ensures d == NoDeadline <==> c == Grey
    ensures c == Red <==> d.DueIn? && d.days < 0
    ensures c == Orange <==> d.DueIn? && d.days == 0
    ensures c == Yellow <==> d.DueIn? && 1 <= d.days <= 3
    ensures c == Green <==> d == Invalid || (d.DueIn? && d.days > 3)
  {
    match d
    case NoDeadline => Grey
    case Invalid => Green
    case DueIn(n) => if n < 0 then Red else if n == 0 then Orange else if n <= 3 then Yellow else Green
  }

  const Calendar := "\U{1F4C5} "
  const Warning := "\U{26A0}\U{FE0F} "

  function WithTimeSuffix(time: string): string
  {
    if time != "" then " " + time else ""
  }

  /**
   * formatDeadline: nothing without a deadline; otherwise "Today" or
   * "Tomorrow" with the time after it when there is one, "Yesterday",
   * "<n>d overdue", "<n>d" for two to seven days ahead, and the short date
   * for anything later or an Invalid Date.
   */
  function FormatDeadline(deadline: string, time: string, now: int, parseDate: string -> Option<int>,
                          shortDate: string -> string): (r: string)
    ensures deadline == "" <==> r == ""
    ensures deadline != "" ==> var d := DaysUntil(deadline, time, now, parseDate);
      (d == DueIn(0) ==> r == Calendar + "Today" + WithTimeSuffix(time))
      && (d == DueIn(1) ==> r == Calendar + "Tomorrow" + WithTimeSuffix(time))
      && (d == DueIn(-1) ==> r == Warning + "Yesterday")
      && (d.DueIn? && d.days < -1 ==> r == Warning + NatToStr(-d.days) + "d overdue")
      && (d.DueIn? && 2 <= d.days <= 7 ==> r == Calendar + NatToStr(d.days) + "d")
      && (!(d.DueIn? && d.days <= 7) ==> r == Calendar + shortDate(deadline))
  {
    if deadline == "" then ""
    else Wording(DaysUntil(deadline, time, now, parseDate), deadline, time, shortDate)
  }

  /** The words formatDeadline picks for a deadline's days left. */
  function Wording(d: Due, deadline: string, time: string, shortDate: string -> string): (r: string)
    ensures r != ""
  {
    match d
    case DueIn(n) =>
      if n == 0 then Calendar + "Today" + WithTimeSuffix(time)
      else if n == 1 then Calendar + "Tomorrow" + WithTimeSuffix(time)
      else if n == -1 then Warning + "Yesterday"
      else if n < 0 then Warning + NatToStr(-n) + "d overdue"
      else if n <= 7 then Calendar + NatToStr(n) + "d"
      else Calendar + shortDate(deadline)
    case _ => Calendar + shortDate(deadline)
  }

  /**
   * The wording agrees with the colour: a red deadline, and only a red one,
   * is worded with the warning sign, and an orange one says "Today".
   */
  lemma WordingMatchesColor(deadline: string, time: string, now: int, parseDate: string -> Option<int>,
                            shortDate: string -> string)
    requires deadline != ""
    ensures var c := DeadlineColor(DaysUntil(deadline, time, now, parseDate));
      var w := FormatDeadline(deadline, time, now, parseDate, shortDate);
      (c == Red <==> StartsWith(w, Warning)) && (c == Orange ==> StartsWith(w, Calendar + "Today"))
  {
    WordingAgreesWithColor(DaysUntil(deadline, time, now, parseDate), deadline, time, shortDate);
  }

  lemma WordingAgreesWithColor(d: Due, deadline: string, time: string, shortDate: string -> string)
    ensures var c := DeadlineColor(d);
      var w := Wording(d, deadline, time, shortDate);
      (c == Red <==> StartsWith(w, Warning)) && (c == Orange ==> StartsWith(w, Calendar + "Today"))
  {
    var w := Wording(d, deadline, time, shortDate);
    if !(d.DueIn? && d.days < 0) {
      assert StartsWith(w, Calendar);
      assert w[0] != Warning[0];
    }
  }

  /** `n` days overdue reads back as n: the number is the exact count of days. */
  lemma OverdueWording(deadline: string, time: string, now: int, parseDate: string -> Option<int>,
                       shortDate: string -> string)
    requires DaysUntil(deadline, time, now, parseDate).DueIn? && DaysUntil(deadline, time, now, parseDate).days < -1
    ensures var n := DaysUntil(deadline, time, now, parseDate).days;
      var w := FormatDeadline(deadline, time, now, parseDate, shortDate);
      var digits := w[|Warning|..|w| - |"d overdue"|];
      |w| > |Warning| + |"d overdue"| && (forall i :: 0 <= i < |digits| ==> IsDigit(digits[i]))
      && DigitsValue(digits) == -n
  {
    OverdueDigits(DaysUntil(deadline, time, now, parseDate), deadline, time, shortDate);
  }

  lemma OverdueDigits(d: Due, deadline: string, time: string, shortDate: string -> string)
    requires d.DueIn? && d.days < -1
    ensures var w := Wording(d, deadline, time, shortDate);
      var digits := w[|Warning|..|w| - |"d overdue"|];
      |w| > |Warning| + |"d overdue"| && (forall i :: 0 <= i < |digits| ==> IsDigit(digits[i]))
      && DigitsValue(digits) == -d.days
  {
    var n := d.days;
    assert Wording(d, deadline, time, shortDate) == Warning + NatToStr(-n) + "d overdue";
    MiddleOf(Warning, NatToStr(-n), "d overdue");
    DigitsOfNatToStr(-n);
  }

  /** "<n>d" for a deadline two to seven days ahead reads back as n. */
  lemma DueSoonWording(deadline: string, time: string, now: int, parseDate: string -> Option<int>,
                       shortDate: string -> string)
    requires DaysUntil(deadline, time, now, parseDate).DueIn?
    requires 2 <= DaysUntil(deadline, time, now, parseDate).days <= 7
    ensures var n := DaysUntil(deadline, time, now, parseDate).days;
      var w := FormatDeadline(deadline, time, now, parseDate, shortDate);
      var digits := w[|Calendar|..|w| - 1];
      |w| > |Calendar| + 1 && w[|w| - 1] == 'd' && (forall i :: 0 <= i < |digits| ==> IsDigit(digits[i]))
      && DigitsValue(digits) == n
  {
    var n := DaysUntil(deadline, time, now, parseDate).days;
    var w := FormatDeadline(deadline, time, now, parseDate, shortDate);
    assert deadline != "" by {
      assert DaysUntil("", time, now, parseDate) == NoDeadline;
    }
    assert w == Calendar + NatToStr(n) + "d";
    MiddleOf(Calendar, NatToStr(n), "d");
    DigitsOfNatToStr(n);
  }

  /**
   * "Today" and "Tomorrow" carry the time when there is one: the wording
   * ends with a space and the time, and is the bare word without one.
   */
  lemma NearDeadlineShowsTime(deadline: string, time: string, now: int, parseDate: string -> Option<int>,
                              shortDate: string -> string)
    requires DaysUntil(deadline, time, now, parseDate) in {DueIn(0), DueIn(1)}
    ensures var w := FormatDeadline(deadline, time, now, parseDate, shortDate);
      var word := if DaysUntil(deadline, time, now, parseDate) == DueIn(0) then "Today" else "Tomorrow";
      StartsWith(w, Calendar + word)
      && (time == "" ==> w == Calendar + word)
      && (time != "" ==> |w| == |Calendar + word| + 1 + |time| && w[|Calendar + word|] == ' '
                         && w[|Calendar + word| + 1..] == time)
  {
    var d := DaysUntil(deadline, time, now, parseDate);
    assert deadline != "" by {
      assert DaysUntil("", time, now, parseDate) == NoDeadline;
    }
    var word := if d == DueIn(0) then "Today" else "Tomorrow";
    assert FormatDeadline(deadline, time, now, parseDate, shortDate) == Calendar + word + WithTimeSuffix(time);
    SuffixShape(Calendar + word, time);
  }

  lemma SuffixShape(p: string, time: string)
    ensures var w := p + WithTimeSuffix(time);
      StartsWith(w, p) && (time == "" ==> w == p)
      && (time != "" ==> |w| == |p| + 1 + |time| && w[|p|] == ' ' && w[|p| + 1..] == time)
  {
    var w := p + WithTimeSuffix(time);
    assert w[..|p|] == p;
  }

  // ---------------------------------------------------------------------
  // The counters.
  // ---------------------------------------------------------------------

  datatype TaskStats = TaskStats(total: nat, completed: nat, overdue: nat, dueToday: nat,
                                 dueThisWeek: nat, noDeadline: nat)

  /** How each counter classifies a task. */
  function DueOf(t: QTask, now: int, parseDate: string -> Option<int>): Due
  {
    DaysUntil(t.deadline, t.time, now, parseDate)
  }

  predicate IsCompleted(t: QTask) { t.completed }

  predicate HasNoDeadline(t: QTask) { t.deadline == "" }

  function OverdueP(now: int, parseDate: string -> Option<int>): QTask -> bool
  {
    (t: QTask) => !t.completed && DueOf(t, now, parseDate).DueIn? && DueOf(t, now, parseDate).days < 0
  }

  function DueTodayP(now: int, parseDate: string -> Option<int>): QTask -> bool
  {
    (t: QTask) => !t.completed && DueOf(t, now, parseDate).DueIn? && DueOf(t, now, parseDate).days == 0
  }

  function DueThisWeekP(now: int, parseDate: string -> Option<int>): QTask -> bool
  {
    (t: QTask) => !t.completed && DueOf(t, now, parseDate).DueIn? && 0 <= DueOf(t, now, parseDate).days <= 7
  }

  /** The counters over a list of tasks, each a count of the tasks it describes. */
  function StatsOf(ts: seq<QTask>, now: int, parseDate: string -> Option<int>): TaskStats
  {
    TaskStats(|ts|, Count(ts, IsCompleted), Count(ts, OverdueP(now, parseDate)),
              Count(ts, DueTodayP(now, parseDate)), Count(ts, DueThisWeekP(now, parseDate)),
              Count(ts, HasNoDeadline))
  }

  /** The one task's increments, as the loop body makes them. */
  function Tally(st: TaskStats, t: QTask, now: int, parseDate: string -> Option<int>): TaskStats
  {
    var d := DueOf(t, now, parseDate);
    TaskStats(st.total + 1, st.completed + (if t.completed then 1 else 0),
              st.overdue + (if d.DueIn? && d.days < 0 && !t.completed then 1 else 0),
              st.dueToday + (if d.DueIn? && d.days == 0 && !t.completed then 1 else 0),
              st.dueThisWeek + (if d.DueIn? && d.days >= 0 && d.days <= 7 && !t.completed then 1 else 0),
              st.noDeadline + (if t.deadline == "" then 1 else 0))
  }

  lemma StatsOfSnoc(ts: seq<QTask>, t: QTask, now: int, parseDate: string -> Option<int>)
    ensures StatsOf(ts + [t], now, parseDate) == Tally(StatsOf(ts, now, parseDate), t, now, parseDate)
  {
    assert (ts + [t])[..|ts|] == ts;
  }

  /** Every task of the board, bucket after bucket. */
  function AllTasks(b: Buckets): (r: seq<QTask>)
    ensures |r| == b.Total()
  {
    b.ui + b.nui + b.uni + b.nuni
  }

  const BoardOrder: seq<Quadrant> := [UrgentImportant, NotUrgentImportant, UrgentNotImportant, NotUrgentNotImportant]

  function Flatten(b: Buckets, qs: seq<Quadrant>): seq<QTask>
  {
    if qs == [] then [] else Flatten(b, qs[..|qs| - 1]) + b.Get(qs[|qs| - 1])
  }

  lemma FlattenBoard(b: Buckets)
    ensures Flatten(b, BoardOrder) == AllTasks(b)
  {
    var q1 := [UrgentImportant];
    var q2 := q1 + [NotUrgentImportant];
    var q3 := q2 + [UrgentNotImportant];
    assert q1[..0] == [] && q2[..1] == q1 && q3[..2] == q2 && BoardOrder[..3] == q3;
    assert Flatten(b, q1) == b.ui;
    assert Flatten(b, q2) == b.ui + b.nui;
    assert Flatten(b, q3) == b.ui + b.nui + b.uni;
  }

  /** The inner loop: the counters after adding one bucket's tasks. */
  method TallyBucket(st0: TaskStats, list: seq<QTask>, now: int, parseDate: string -> Option<int>,
                     ghost before: seq<QTask>) returns (st: TaskStats)
    requires st0 == StatsOf(before, now, parseDate)
    ensures st == StatsOf(before + list, now, parseDate)
  {
    st := st0;
    AppendPrefix(before, list, 0);
    for j := 0 to |list|
      invariant st == StatsOf(before + list[..j], now, parseDate)
    {
      StatsOfSnoc(before + list[..j], list[j], now, parseDate);
      AppendPrefix(before, list, j);
      st := Tally(st, list[j], now, parseDate);
    }
    PrefixAll(list);
  }

  lemma AppendPrefix<T>(before: seq<T>, list: seq<T>, j: nat)
    requires j <= |list|
    ensures before + list[..0] == before
    ensures j < |list| ==> before + list[..j + 1] == (before + list[..j]) + [list[j]]
  {
    assert before + list[..0] == before;
    if j < |list| {
      assert before + list[..j + 1] == (before + list[..j]) + [list[j]];
    }
  }

  /** getTaskStats: one pass over every task of every quadrant. */
  method GetTaskStats(b: Buckets, now: int, parseDate: string -> Option<int>) returns (st: TaskStats)
    ensures st == StatsOf(AllTasks(b), now, parseDate)
  {
    st := TaskStats(0, 0, 0, 0, 0, 0);
    ghost var seen: seq<QTask> := [];
    for k := 0 to 4
      invariant seen == Flatten(b, BoardOrder[..k])
      invariant st == StatsOf(seen, now, parseDate)
    {
      var list := b.Get(BoardOrder[k]);
      st := TallyBucket(st, list, now, parseDate, seen);
      assert BoardOrder[..k + 1][..k] == BoardOrder[..k];
      seen := seen + list;
    }
    assert BoardOrder[..4] == BoardOrder;
    FlattenBoard(b);
  }

  /**
   * What the counters promise: done and undated tasks are among all tasks;
   * overdue and due-today are disjoint and open; due today is due this week.
   */
  lemma StatsBounds(ts: seq<QTask>, now: int, parseDate: string -> Option<int>)
    ensures var st := StatsOf(ts, now, parseDate);
      st.completed <= st.total && st.noDeadline <= st.total
      && st.overdue + st.dueToday <= st.total - st.completed
      && st.dueThisWeek <= st.total - st.completed
      && st.dueToday <= st.dueThisWeek
  {
    var open := (t: QTask) => !IsCompleted(t);
    CountComplement(ts, IsCompleted, open);
    CountDisjoint(ts, OverdueP(now, parseDate), DueTodayP(now, parseDate), open);
    CountMonotone(ts, DueThisWeekP(now, parseDate), open);
    CountMonotone(ts, DueTodayP(now, parseDate), DueThisWeekP(now, parseDate));
  }

  /** The board's total is the number of tasks across the four buckets. */
  lemma StatsTotalIsBoardTotal(b: Buckets, now: int, parseDate: string -> Option<int>)
    ensures StatsOf(AllTasks(b), now, parseDate).total == b.Total()
  {
  }

  // ---------------------------------------------------------------------
  // Filtering, dropping and validation.
  // ---------------------------------------------------------------------


  function KeptBy(f: CompletionFilter): QTask -> bool
  {
    (t: QTask) => Kept(f, t.completed)
  }

  /** getFilteredTasks, without its order (see the README). */
  function FilteredTasks(list: seq<QTask>, f: CompletionFilter): (r: seq<QTask>)
    ensures forall i :: 0 <= i < |r| ==> Kept(f, r[i].completed) && r[i] in list
    ensures forall i :: 0 <= i < |list| && Kept(f, list[i].completed) ==> list[i] in r
    ensures multiset(r) <= multiset(list)
    ensures f == ShowAll ==> r == list
  {
    if f == ShowAll then list else Filter(list, KeptBy(f))
  }

  /** The active and the completed views split the list between them. */
  lemma ActiveAndCompletedSplit(list: seq<QTask>)
    ensures |FilteredTasks(list, ShowActive)| + |FilteredTasks(list, ShowCompleted)| == |list|
  {
    CountIsFilterLength(list, KeptBy(ShowActive));
    CountIsFilterLength(list, KeptBy(ShowCompleted));
    CountComplement(list, KeptBy(ShowCompleted), KeptBy(ShowActive));
  }

  /** The drag in progress: the quadrant task and the quadrant it left. */
  datatype Drag = Drag(quadrant: Quadrant, task: QTask)

  class Board {
    var dragged: Option<Drag>

    constructor()
      ensures dragged.None?
    {
      dragged := None;
    }

    method HandleDragStart(q: Quadrant, t: QTask)
      modifies this
      ensures dragged == Some(Drag(q, t))
    {
      dragged := Some(Drag(q, t));
    }

    /**
     * handleDrop: a task dropped on another quadrant moves there, one
     * dropped where it came from stays; the drag always ends.
     */
    method HandleDrop(store: AppStore, target: Quadrant)
      modifies this, store
      ensures dragged.None?
      ensures old(dragged).None? || old(dragged).value.quadrant == target ==> store.tasks == old(store.tasks)
      ensures old(dragged).Some? && old(dragged).value.quadrant != target ==>
        store.tasks == Moved(old(store.tasks), old(dragged).value.quadrant, old(dragged).value.task.id, target)
      ensures store.habits == old(store.habits) && store.expenses == old(store.expenses)
      ensures store.notes == old(store.notes)
    {
      if dragged.None? {
        return;
      }
      var d := dragged.value;
      if d.quadrant != target {
        var _ := store.MoveTask(d.quadrant, d.task.id, target);
      }
      dragged := None;
    }
  }

  /** A drop never changes how many tasks the board holds. */
  method DropKeepsTotal(board: Board, store: AppStore, target: Quadrant)
    requires board.dragged.Some? ==> UniqueTaskIds(store.tasks.Get(board.dragged.value.quadrant))
    requires board != store as object
    modifies board, store
    ensures store.tasks.Total() == old(store.tasks.Total())
    ensures board.dragged.None?
  {
    ghost var d := board.dragged;
    ghost var before := store.tasks;
    board.HandleDrop(store, target);
    if d.Some? && d.value.quadrant != target {
      MovedTotal(before, d.value.quadrant, d.value.task.id, target);
    }
  }

  /** The quadrant task handleSubmit sends: the text as typed, optional deadline and time, not done. */
  datatype TaskDraft = TaskDraft(text: string, quadrant: Quadrant, deadline: Option<string>,
                                 time: Option<string>, completed: bool)

  function OrNull(s: string): Option<string>
  {
    if s == "" then None else Some(s)
  }

  /** handleSubmit: nothing is sent for a blank text. */
  function SubmitDraft(text: string, q: Quadrant, deadline: string, time: string): (r: Option<TaskDraft>)
    ensures r.None? <==> IsBlank(text)
    ensures r.Some? ==> r.value.text == text && r.value.quadrant == q && !r.value.completed
    ensures r.Some? ==> (r.value.deadline.None? <==> deadline == "") && (r.value.time.None? <==> time == "")
  {
    TrimEmptyIffBlank(text);
    if Trim(text) == "" then None else Some(TaskDraft(text, q, OrNull(deadline), OrNull(time), false))
  }

  /**
   * saveEdit: nothing is sent for a blank text or a task not in the
   * quadrant; else the quadrant task with the new text, deadline and time.
   */
  function SaveEdit(b: Buckets, q: Quadrant, id: int, text: string, deadline: string, time: string): (r: Option<QTask>)
    ensures r.None? <==> IsBlank(text) || FindTask(b.Get(q), id).None?
    ensures r.Some? ==> var old_ := b.Get(q)[FindTask(b.Get(q), id).value];
      r.value == old_.(text := text, deadline := deadline, time := time)
      && r.value.id == id && r.value.quadrant == old_.quadrant && r.value.completed == old_.completed
  {
    TrimEmptyIffBlank(text);
    if Trim(text) == "" then None
    else match FindTask(b.Get(q), id)
      case None => None
      case Some(k) => Some(b.Get(q)[k].(text := text, deadline := deadline, time := time))
  }
}
