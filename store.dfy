// The client-side collection store of src/context/AppContext.jsx: in-memory
// habits, expenses and notes, the four Eisenhower quadrant buckets, and the
// helpers that keep them in step with the server. The server gateway is an
// oracle: each remote helper takes the reply it would receive, `None` when
// the request fails. Deletes are optimistic; adds and updates change the
// store only once the reply is there.

module Store {
  import opened Common
  import opened Dates

  // ---------------------------------------------------------------------
  // Quadrants.
  // ---------------------------------------------------------------------

  datatype Quadrant = UrgentImportant | NotUrgentImportant | UrgentNotImportant | NotUrgentNotImportant

  /** The key the client and the server use for a quadrant. */
  function QuadrantName(q: Quadrant): (s: string)
    ensures QuadrantOfName(s) == Some(q)
  {
    match q
    case UrgentImportant => "urgent_important"
    case NotUrgentImportant => "not_urgent_important"
    case UrgentNotImportant => "urgent_not_important"
    case NotUrgentNotImportant => "not_urgent_not_important"
  }

  /** The quadrant a key names, if it names one of the four. */
  function QuadrantOfName(s: string): (r: Option<Quadrant>)
  {
    if s == "urgent_important" then Some(UrgentImportant)
    else if s == "not_urgent_important" then Some(NotUrgentImportant)
    else if s == "urgent_not_important" then Some(UrgentNotImportant)
    else if s == "not_urgent_not_important" then Some(NotUrgentNotImportant)
    else None
  }

  lemma QuadrantNameInjective(q1: Quadrant, q2: Quadrant)
    requires QuadrantName(q1) == QuadrantName(q2)
    ensures q1 == q2
  {
    assert QuadrantOfName(QuadrantName(q1)) == Some(q1);
  }

  /**
   * A quadrant task in the store; `deadline` and `time` are "" where the
   * client stores null.
   */
  datatype QTask = QTask(id: int, text: string, quadrant: Quadrant, deadline: string,
                         time: string, completed: bool, createdAt: string)

  /** The four buckets keyed by quadrant name. */
  datatype Buckets = Buckets(ui: seq<QTask>, nui: seq<QTask>, uni: seq<QTask>, nuni: seq<QTask>)
  {
    function Get(q: Quadrant): seq<QTask>
    {
      match q
      case UrgentImportant => ui
      case NotUrgentImportant => nui
      case UrgentNotImportant => uni
      case NotUrgentNotImportant => nuni
    }

    /** `{ ...prev, [q]: s }`. */
    function With(q: Quadrant, s: seq<QTask>): (r: Buckets)
      ensures r.Get(q) == s
      ensures forall q' :: q' != q ==> r.Get(q') == Get(q')
      ensures r.Total() == Total() - |Get(q)| + |s|
    {
      match q
      case UrgentImportant => this.(ui := s)
      case NotUrgentImportant => this.(nui := s)
      case UrgentNotImportant => this.(uni := s)
      case NotUrgentNotImportant => this.(nuni := s)
    }

    /** Number of tasks over all four buckets. */
    function Total(): nat
    {
      |ui| + |nui| + |uni| + |nuni|
    }
  }

  const EmptyBuckets: Buckets := Buckets([], [], [], [])

  lemma WithSame(b: Buckets, q: Quadrant)
    ensures b.With(q, b.Get(q)) == b
  {
  }

  predicate UniqueTaskIds(b: seq<QTask>)
  {
    forall i, j :: 0 <= i < j < |b| ==> b[i].id != b[j].id
  }

  /** Array.prototype.findIndex on the id. */
  function FindTask(b: seq<QTask>, id: int): (r: Option<nat>)
    ensures r.Some? ==> r.value < |b| && b[r.value].id == id
    ensures r.Some? ==> forall k :: 0 <= k < r.value ==> b[k].id != id
    ensures r.None? ==> forall k :: 0 <= k < |b| ==> b[k].id != id
  {
    FindFirst(b, (t: QTask) => t.id == id)
  }

  /** Every task with the id replaced by `nt`. */
  function ReplaceTask(b: seq<QTask>, id: int, nt: QTask): (r: seq<QTask>)
    ensures |r| == |b|
    ensures forall i :: 0 <= i < |b| ==> r[i] == if b[i].id == id then nt else b[i]
  {
    MapSeq(b, (t: QTask) => if t.id == id then nt else t)
  }

  /** `filter(t => t.id !== id)`. */
  function RemoveTask(b: seq<QTask>, id: int): (r: seq<QTask>)
    ensures forall i :: 0 <= i < |r| ==> r[i].id != id && r[i] in b
    ensures forall i :: 0 <= i < |b| && b[i].id != id ==> b[i] in r
    ensures |r| <= |b|
  {
    Filter(b, (t: QTask) => t.id != id)
  }

  lemma {:induction false} RemoveTaskCount(b: seq<QTask>, id: int)
    ensures |RemoveTask(b, id)| == |b| - Count(b, (t: QTask) => t.id == id)
  {
    if b != [] { RemoveTaskCount(b[..|b|-1], id); }
  }

  lemma {:induction false} CountSame<T>(s: seq<T>, p: T -> bool, q: T -> bool)
    requires forall x :: p(x) == q(x)
    ensures Count(s, p) == Count(s, q)
  {
    if s != [] { CountSame(s[..|s|-1], p, q); }
  }

  /** With unique ids, a found id occurs exactly once. */
  lemma {:induction false} CountUniqueFound(b: seq<QTask>, id: int, k: nat)
    requires UniqueTaskIds(b) && k < |b| && b[k].id == id
    ensures Count(b, (t: QTask) => t.id == id) == 1
  {
    var init := b[..|b|-1];
    assert UniqueTaskIds(init);
    if k == |b| - 1 {
      forall i | 0 <= i < |init| ensures init[i].id != id {
        assert b[i].id != b[k].id;
      }
      CountNone(init, (t: QTask) => t.id == id);
    } else {
      assert init[k].id == id;
      CountUniqueFound(init, id, k);
      assert b[|b|-1].id != b[k].id;
    }
  }

  // ---------------------------------------------------------------------
  // markTaskComplete and moveTask (lines 70-97) as functions of the buckets.
  // ---------------------------------------------------------------------

  /**
   * The bucket after markTaskComplete: the first task with the id, its
   * `completed` negated, replaces every task with that id; an unknown id
   * leaves the bucket as it is.
   */
  function CompleteToggled(b: seq<QTask>, id: int): (r: seq<QTask>)
    ensures |r| == |b|
    ensures FindTask(b, id).None? ==> r == b
    ensures forall i :: 0 <= i < |b| && b[i].id != id ==> r[i] == b[i]
    ensures forall i :: 0 <= i < |b| && b[i].id == id ==> r[i].id == id
  {
    match FindTask(b, id)
    case None => b
    case Some(k) => ReplaceTask(b, id, b[k].(completed := !b[k].completed))
  }

  /** With unique ids, exactly the quadrant task with the id has its flag negated. */
  lemma CompleteToggledFlips(b: seq<QTask>, id: int, i: nat)
    requires UniqueTaskIds(b) && i < |b| && b[i].id == id
    ensures CompleteToggled(b, id)[i] == b[i].(completed := !b[i].completed)
  {
    var k := FindTask(b, id).value;
    assert b[k].id == b[i].id;
  }

  /** With unique ids, marking the same task twice restores the bucket. */
  lemma CompleteToggledTwice(b: seq<QTask>, id: int)
    requires UniqueTaskIds(b)
    ensures CompleteToggled(CompleteToggled(b, id), id) == b
  {
    var r := CompleteToggled(b, id);
    if FindTask(b, id).Some? {
      var k := FindTask(b, id).value;
      CompleteToggledFlips(b, id, k);
      assert UniqueTaskIds(r) by {
        forall i, j | 0 <= i < j < |r| ensures r[i].id != r[j].id {
          assert r[i].id == b[i].id && r[j].id == b[j].id;
        }
      }
      CompleteToggledFlips(r, id, k);
      forall i | 0 <= i < |b| ensures CompleteToggled(r, id)[i] == b[i] {
        if b[i].id == id {
          assert b[i].id == b[k].id;
        }
      }
    }
  }

  /**
   * The buckets after moveTask: nothing changes when the quadrant task is not in
   * `from` or `from == to`; otherwise every task with the id leaves `from`
   * and the first of them is appended to `to` with its quadrant set.
   */
  function Moved(bk: Buckets, from: Quadrant, id: int, to: Quadrant): (r: Buckets)
    ensures FindTask(bk.Get(from), id).None? || from == to ==> r == bk
    ensures FindTask(bk.Get(from), id).Some? && from != to ==>
              var t := bk.Get(from)[FindTask(bk.Get(from), id).value];
              && r.Get(from) == RemoveTask(bk.Get(from), id)
              && r.Get(to) == bk.Get(to) + [t.(quadrant := to)]
              && forall q :: q != from && q != to ==> r.Get(q) == bk.Get(q)
  {
    match FindTask(bk.Get(from), id)
    case None => bk
    case Some(k) =>
      if from == to then bk
      else
        var t := bk.Get(from)[k].(quadrant := to);
        bk.With(from, RemoveTask(bk.Get(from), id)).With(to, bk.Get(to) + [t])
  }

  /** With unique ids in the source bucket, moving keeps the quadrant task count. */
  lemma MovedTotal(bk: Buckets, from: Quadrant, id: int, to: Quadrant)
    requires UniqueTaskIds(bk.Get(from))
    ensures Moved(bk, from, id, to).Total() == bk.Total()
  {
    var f := FindTask(bk.Get(from), id);
    if f.Some? && from != to {
      RemoveTaskCount(bk.Get(from), id);
      CountUniqueFound(bk.Get(from), id, f.value);
    }
  }

  // ---------------------------------------------------------------------
  // Grouping the server's quadrant tasks (lines 282-304).
  // ---------------------------------------------------------------------

  /** A quadrant task document as the server sends it; "" for a missing string. */
  datatype ServerTask = ServerTask(id: int, text: string, quadrant: string, deadline: string,
                                   time: string, completed: bool, createdAt: string)

  /**
   * The bucket a document goes to: a missing quadrant counts as
   * `urgent_important`, a value that is not one of the four keys goes nowhere.
   */
  function BucketOf(t: ServerTask): (r: Option<Quadrant>)
    ensures t.quadrant == "" ==> r == Some(UrgentImportant)
    ensures t.quadrant != "" ==> r == QuadrantOfName(t.quadrant)
    ensures r.Some? && t.quadrant != "" ==> QuadrantName(r.value) == t.quadrant
  {
    QuadrantOfName(if t.quadrant == "" then "urgent_important" else t.quadrant)
  }

  function NormalizeTask(t: ServerTask, q: Quadrant): QTask
  {
    QTask(t.id, t.text, q, t.deadline, t.time, t.completed, t.createdAt)
  }

  /** The grouping of a list of documents, one document at a time. */
  function Grouped(all: seq<ServerTask>): Buckets
  {
    if all == [] then EmptyBuckets
    else
      var b := Grouped(all[..|all|-1]);
      var t := all[|all|-1];
      match BucketOf(t)
      case None => b
      case Some(q) => b.With(q, b.Get(q) + [NormalizeTask(t, q)])
  }

  /** Bucket q holds, in input order, the documents that belong to q. */
  lemma {:induction false} GroupedBucket(all: seq<ServerTask>, q: Quadrant)
    ensures Grouped(all).Get(q)
         == MapSeq(Filter(all, (t: ServerTask) => BucketOf(t) == Some(q)), (t: ServerTask) => NormalizeTask(t, q))
  {
    if all != [] {
      var init, t := all[..|all|-1], all[|all|-1];
      var p := (t: ServerTask) => BucketOf(t) == Some(q);
      var f := (t: ServerTask) => NormalizeTask(t, q);
      GroupedBucket(init, q);
      GroupedStep(all, q);
      var l := Filter(init, p);
      assert Filter(all, p) == l + (if p(t) then [t] else []);
      if p(t) {
        MapSeqAppend(l, [t], f);
      }
    }
  }

  /** One more document adds at most itself, normalised, to bucket q. */
  lemma GroupedStep(all: seq<ServerTask>, q: Quadrant)
    requires all != []
    ensures Grouped(all).Get(q)
         == Grouped(all[..|all|-1]).Get(q)
            + (if BucketOf(all[|all|-1]) == Some(q) then [NormalizeTask(all[|all|-1], q)] else [])
  {
    var b, t := Grouped(all[..|all|-1]), all[|all|-1];
    match BucketOf(t)
    case None =>
    case Some(q') =>
      var b' := b.With(q', b.Get(q') + [NormalizeTask(t, q')]);
      assert Grouped(all) == b';
      if q' != q {
        assert b'.Get(q) == b.Get(q);
      }
  }

  /** Grouping keeps exactly the documents with a recognised quadrant. */
  lemma {:induction false} GroupedTotal(all: seq<ServerTask>)
    ensures Grouped(all).Total() == Count(all, (t: ServerTask) => BucketOf(t).Some?)
  {
    if all != [] {
      GroupedTotal(all[..|all|-1]);
    }
  }

  // ---------------------------------------------------------------------
  // Habits.
  // ---------------------------------------------------------------------

  /**
   * A habit in the store. `completed` is the positional log of the shown
   * window; `streak` is absent for a habit added in this session.
   */
  datatype Habit = Habit(id: int, name: string, frequency: int, createdAt: string,
                         completed: seq<bool>, completedByDate: map<string, bool>,
                         streak: Option<nat>)

  /** The number of `true` entries at the end of c. */
  function TrailingRun(c: seq<bool>): (n: nat)
    ensures n <= |c|
    ensures forall k :: |c| - n <= k < |c| ==> c[k]
    ensures n < |c| ==> !c[|c| - 1 - n]
  {
    if c == [] || !c[|c|-1] then 0 else 1 + TrailingRun(c[..|c|-1])
  }

  /** Any count with the two defining properties is the trailing run. */
  lemma TrailingRunUnique(c: seq<bool>, n: nat)
    requires n <= |c|
    requires forall k :: |c| - n <= k < |c| ==> c[k]
    requires n < |c| ==> !c[|c| - 1 - n]
    ensures n == TrailingRun(c)
  {
  }

  /** computeStreak: walk back from the end while the entries are true. */
  method ComputeStreak(completed: seq<bool>) returns (streak: nat)
    ensures streak == TrailingRun(completed)
  {
    streak := 0;
    var i := |completed| - 1;
    while i >= 0
      invariant -1 <= i < |completed|
      invariant streak == |completed| - 1 - i
      invariant forall k :: i < k < |completed| ==> completed[k]
      decreases i + 1
    {
      if completed[i] {
        streak := streak + 1;
      } else {
        break;
      }
      i := i - 1;
    }
    TrailingRunUnique(completed, streak);
  }

  /** `Array(n).fill(false)`. */
  function AllFalse(n: nat): (r: seq<bool>)
    ensures |r| == n && forall k :: 0 <= k < n ==> !r[k]
  {
    seq(n, k => false)
  }

  /** A habit document from the server; "" and 0 stand for missing values. */
  datatype ServerHabit = ServerHabit(id: int, name: string, frequency: int, createdAt: string,
                                     completed: seq<bool>, completedByDate: Option<map<string, bool>>)

  /** The habit mapping of reloadAll (lines 205-220). */
  function NormalizeHabit(h: ServerHabit, today: string): (r: Habit)
    ensures r.id == h.id && r.name == h.name
    ensures r.frequency != 0 && (h.frequency != 0 ==> r.frequency == h.frequency)
    ensures h.frequency == 0 ==> r.frequency == 1
    ensures h.completedByDate.Some? ==> r.completedByDate == h.completedByDate.value
    ensures h.completedByDate.None? ==> r.completedByDate == map[]
    ensures |r.completed| >= 1 && (h.completed != [] ==> r.completed == h.completed)
    ensures h.completed == [] ==> r.completed == AllFalse(7)
    ensures r.streak == Some(TrailingRun(r.completed))
    ensures r.createdAt == if h.createdAt != "" then h.createdAt else today
  {
    var c := if h.completed != [] then h.completed else AllFalse(7);
    Habit(h.id, h.name, if h.frequency != 0 then h.frequency else 1,
          if h.createdAt != "" then h.createdAt else today,
          c, if h.completedByDate.Some? then h.completedByDate.value else map[],
          Some(TrailingRun(c)))
  }

  /** The habit addHabitRemote stores for a server reply (lines 325-332). */
  function CreatedHabit(c: ServerHabit, frequency: int, today: string): (r: Habit)
    ensures r.completed == AllFalse(7) && r.streak.None?
    ensures r.frequency == if c.frequency != 0 then c.frequency else frequency
  {
    Habit(c.id, c.name, if c.frequency != 0 then c.frequency else frequency,
          if c.createdAt != "" then c.createdAt else today,
          AllFalse(7), if c.completedByDate.Some? then c.completedByDate.value else map[],
          None)
  }

  /** The day argument of toggleHabitRemote: a string or a number. */
  datatype DayArg = StrArg(s: string) | NumArg(n: int)

  /** `typeof dayOrDate === 'string' && dayOrDate.includes('-')`. */
  predicate IsDateStr(a: DayArg)
  {
    a.StrArg? && '-' in a.s
  }

  /** The array element `completed[a]` addresses, if any (a canonical index). */
  function ArrayIndex(a: DayArg): (r: Option<nat>)
    ensures a.NumArg? ==> (r.Some? <==> a.n >= 0)
    ensures a.NumArg? && a.n >= 0 ==> r == Some(a.n)
  {
    match a
    case NumArg(n) => if n >= 0 then Some(n) else None
    case StrArg(s) =>
      if s != [] && DigitsOnly(s) && NatToStr(DigitsValue(s)) == s then Some(DigitsValue(s)) else None
  }

  /**
   * `completed[i] = v` on a copy: past the end the array grows, and the
   * holes read as false.
   */
  function SetAt(c: seq<bool>, i: nat, v: bool): (r: seq<bool>)
    ensures |r| == if i < |c| then |c| else i + 1
    ensures r[i] == v
    ensures forall k :: 0 <= k < |r| && k != i ==> r[k] == (k < |c| && c[k])
  {
    if i < |c| then c[i := v] else c + AllFalse(i - |c|) + [v]
  }

  /** The habit after toggleHabitRemote's updater (lines 350-366). */
  function ToggledHabit(h: Habit, a: DayArg, v: bool): (r: Habit)
    ensures r.streak == Some(TrailingRun(r.completed))
    ensures r.id == h.id && r.name == h.name && r.frequency == h.frequency && r.createdAt == h.createdAt
    ensures IsDateStr(a) ==> r.completed == h.completed && r.completedByDate == h.completedByDate[a.s := v]
    ensures !IsDateStr(a) ==> r.completedByDate == h.completedByDate
    ensures !IsDateStr(a) && ArrayIndex(a).None? ==> r.completed == h.completed
    ensures !IsDateStr(a) && ArrayIndex(a).Some? ==> r.completed == SetAt(h.completed, ArrayIndex(a).value, v)
  {
    var next :=
      if IsDateStr(a) then h.(completedByDate := h.completedByDate[a.s := v])
      else match ArrayIndex(a)
        case None => h
        case Some(i) => h.(completed := SetAt(h.completed, i, v));
    next.(streak := Some(TrailingRun(next.completed)))
  }

  /** The streak depends on `completed` only: a date toggle cannot change it. */
  lemma DateToggleKeepsStreakBase(h: Habit, key: string, v: bool)
    requires '-' in key
    ensures ToggledHabit(h, StrArg(key), v).streak == Some(TrailingRun(h.completed))
  {
  }

  /** Toggling an index to true at the end of the log extends the streak by one. */
  lemma ToggleLastExtendsStreak(h: Habit)
    requires h.completed != []
    ensures ToggledHabit(h, NumArg(|h.completed| - 1), true).streak
         == Some(1 + TrailingRun(h.completed[..|h.completed| - 1]))
  {
    var c := SetAt(h.completed, |h.completed| - 1, true);
    assert c[..|c|-1] == h.completed[..|h.completed| - 1];
  }

  /** The fields updateHabitRemote sends and merges. */
  datatype HabitPatch = HabitPatch(name: string, frequency: int, createdAt: string, completed: seq<bool>)

  /** `{ ...h, ...payload, streak: computeStreak(payload.completed || h.completed) }`. */
  function PatchedHabit(h: Habit, p: HabitPatch): (r: Habit)
    ensures r.id == h.id && r.completedByDate == h.completedByDate
    ensures r.name == p.name && r.frequency == p.frequency && r.createdAt == p.createdAt
    ensures r.completed == p.completed
    ensures r.streak == Some(TrailingRun(p.completed))
  {
    Habit(h.id, p.name, p.frequency, p.createdAt, p.completed, h.completedByDate, Some(TrailingRun(p.completed)))
  }

  /** A habit whose stored streak, when there is one, matches its log. */
  predicate StreakConsistent(h: Habit)
  {
    h.streak.Some? ==> h.streak.value == TrailingRun(h.completed)
  }

  lemma StoredStreaksConsistent(s: ServerHabit, today: string, c: ServerHabit, f: int, h: Habit, a: DayArg, v: bool, p: HabitPatch)
    ensures StreakConsistent(NormalizeHabit(s, today))
    ensures StreakConsistent(CreatedHabit(c, f, today))
    ensures StreakConsistent(ToggledHabit(h, a, v))
    ensures StreakConsistent(PatchedHabit(h, p))
  {
  }

  // ---------------------------------------------------------------------
  // Expenses.
  // ---------------------------------------------------------------------

  /**
   * The `category` of a stored expense: a name (what the client writes) or
   * the numeric id of a finance category (what a reload may bring back).
   */
  datatype CategoryRef = ByName(name: string) | ById(catId: int)

  /**
   * An expense in the store; `amount` is in cents, negative for spending and
   * positive for income; `date` is the `YYYY-MM-DD` key it was given.
   */
  datatype Expense = Expense(id: int, category: CategoryRef, amount: int, date: string,
                             time: string, description: string, isRecurring: bool)

  /**
   * An expense document; `category` is the foreign key or null, and
   * `isRecurring` is the camel-case field the client reads.
   */
  datatype ServerExpense = ServerExpense(id: int, title: string, category: Option<int>, amount: int,
                                         date: string, description: string, isRecurring: bool)

  /** `e.title || e.category || 'Other'`. */
  function ExpenseCategoryOf(e: ServerExpense): (r: CategoryRef)
    ensures e.title != "" ==> r == ByName(e.title)
    ensures e.title == "" && e.category.Some? && e.category.value != 0 ==> r == ById(e.category.value)
    ensures r.ById? ==> r.catId != 0
    ensures r == ByName("Other") <==> e.title == "Other" || (e.title == "" && (e.category.None? || e.category.value == 0))
  {
    if e.title != "" then ByName(e.title)
    else if e.category.Some? && e.category.value != 0 then ById(e.category.value)
    else ByName("Other")
  }

  /** The expense mapping of reloadAll (lines 229-236); no time is carried over. */
  function NormalizeExpense(e: ServerExpense, today: string): (r: Expense)
    ensures r.id == e.id && r.amount == e.amount && r.category == ExpenseCategoryOf(e)
    ensures e.date != "" ==> r.date == e.date
    ensures e.date == "" ==> r.date == today
    ensures r.description == e.description && r.isRecurring == e.isRecurring && r.time == ""
  {
    Expense(e.id, ExpenseCategoryOf(e), e.amount, if e.date != "" then e.date else today,
            "", e.description, e.isRecurring)
  }

  /** Id and date of a created expense as the server returns them. */
  datatype CreatedExpense = CreatedExpense(id: int, date: string)

  // ---------------------------------------------------------------------
  // Notes: stored as the server sends them.
  // ---------------------------------------------------------------------

  /** A note; `createdAt` is the instant of its creation in milliseconds. */
  datatype Note = Note(id: int, title: string, content: string, category: string,
                       pinned: bool, color: string, createdAt: int)

  // ---------------------------------------------------------------------
  // Replacing and removing by id, the shape every update and delete takes.
  // ---------------------------------------------------------------------

  function ReplaceHabits(hs: seq<Habit>, id: int, f: Habit -> Habit): (r: seq<Habit>)
    ensures |r| == |hs|
    ensures forall i :: 0 <= i < |hs| ==> r[i] == if hs[i].id == id then f(hs[i]) else hs[i]
  {
    MapSeq(hs, (h: Habit) => if h.id == id then f(h) else h)
  }

  function RemoveHabit(hs: seq<Habit>, id: int): (r: seq<Habit>)
    ensures forall i :: 0 <= i < |r| ==> r[i].id != id && r[i] in hs
    ensures forall i :: 0 <= i < |hs| && hs[i].id != id ==> hs[i] in r
  {
    Filter(hs, (h: Habit) => h.id != id)
  }

  function ReplaceExpenses(es: seq<Expense>, id: int, payload: Expense): (r: seq<Expense>)
    ensures |r| == |es|
    ensures forall i :: 0 <= i < |es| ==> r[i] == if es[i].id == id then payload else es[i]
  {
    MapSeq(es, (e: Expense) => if e.id == id then payload else e)
  }

  function RemoveExpense(es: seq<Expense>, id: int): (r: seq<Expense>)
    ensures forall i :: 0 <= i < |r| ==> r[i].id != id && r[i] in es
    ensures forall i :: 0 <= i < |es| && es[i].id != id ==> es[i] in r
  {
    Filter(es, (e: Expense) => e.id != id)
  }

  function ReplaceNotes(ns: seq<Note>, id: int, payload: Note): (r: seq<Note>)
    ensures |r| == |ns|
    ensures forall i :: 0 <= i < |ns| ==> r[i] == if ns[i].id == id then payload else ns[i]
  {
    MapSeq(ns, (n: Note) => if n.id == id then payload else n)
  }

  function RemoveNote(ns: seq<Note>, id: int): (r: seq<Note>)
    ensures forall i :: 0 <= i < |r| ==> r[i].id != id && r[i] in ns
    ensures forall i :: 0 <= i < |ns| && ns[i].id != id ==> ns[i] in r
  {
    Filter(ns, (n: Note) => n.id != id)
  }

  /** The fields of a quadrant task updateTaskRemote takes from the reply. */
  function MergeTaskReply(t: QTask, u: QTask): (r: QTask)
    ensures r.id == t.id && r.createdAt == t.createdAt
    ensures r.text == u.text && r.quadrant == u.quadrant && r.completed == u.completed
  {
    t.(text := u.text, quadrant := u.quadrant, deadline := u.deadline, time := u.time,
       completed := u.completed)
  }

  function MergeTaskInBucket(b: seq<QTask>, id: int, u: QTask): (r: seq<QTask>)
    ensures |r| == |b|
    ensures forall i :: 0 <= i < |b| ==> r[i] == if b[i].id == id then MergeTaskReply(b[i], u) else b[i]
  {
    MapSeq(b, (t: QTask) => if t.id == id then MergeTaskReply(t, u) else t)
  }

  // ---------------------------------------------------------------------
  // The store.
  // ---------------------------------------------------------------------

  class AppStore {
    var habits: seq<Habit>
    var tasks: Buckets
    var expenses: seq<Expense>
    var notes: seq<Note>

    constructor()
      ensures habits == [] && tasks == EmptyBuckets && expenses == [] && notes == []
    {
      habits := [];
      tasks := EmptyBuckets;
      expenses := [];
      notes := [];
    }

    /**
     * markTaskComplete; `sent` is the quadrant task handed to updateTaskRemote, whose
     * reply is a separate UpdateTaskRemote call.
     */
    method MarkTaskComplete(q: Quadrant, id: int) returns (sent: Option<QTask>)
      modifies this
      ensures tasks == old(tasks).With(q, CompleteToggled(old(tasks).Get(q), id))
      ensures FindTask(old(tasks).Get(q), id).None? ==> tasks == old(tasks) && sent.None?
      ensures sent.Some? ==> sent.value.id == id
      ensures sent.Some? ==> var k := FindTask(old(tasks).Get(q), id).value;
                sent.value == old(tasks).Get(q)[k].(completed := !old(tasks).Get(q)[k].completed)
      ensures habits == old(habits) && expenses == old(expenses) && notes == old(notes)
    {
      var b := tasks.Get(q);
      var idx := FindTask(b, id);
      if idx.None? {
        WithSame(tasks, q);
        return None;
      }
      var task := b[idx.value];
      var newTask := task.(completed := !task.completed);
      tasks := tasks.With(q, ReplaceTask(b, id, newTask));
      sent := Some(newTask);
    }

    /** moveTask; `sent` is the moved task handed to updateTaskRemote. */
    method MoveTask(from: Quadrant, id: int, to: Quadrant) returns (sent: Option<QTask>)
      modifies this
      ensures tasks == Moved(old(tasks), from, id, to)
      ensures sent.Some? <==> FindTask(old(tasks).Get(from), id).Some? && from != to
      ensures sent.Some? ==> sent.value.id == id && sent.value.quadrant == to
      ensures habits == old(habits) && expenses == old(expenses) && notes == old(notes)
    {
      var b := tasks.Get(from);
      var idx := FindTask(b, id);
      if idx.None? || from == to {
        return None;
      }
      var updated := b[idx.value].(quadrant := to);
      tasks := tasks.With(from, RemoveTask(b, id)).With(to, tasks.Get(to) + [updated]);
      sent := Some(updated);
    }

    /** The quadrant-task load effect: group the documents, one at a time. */
    method LoadQuadrantTasks(reply: Option<seq<ServerTask>>)
      modifies this
      ensures reply.None? ==> tasks == old(tasks)
      ensures reply.Some? ==> tasks == Grouped(reply.value)
      ensures habits == old(habits) && expenses == old(expenses) && notes == old(notes)
    {
      if reply.None? {
        return;
      }
      var all := reply.value;
      var grouped := EmptyBuckets;
      var i := 0;
      while i < |all|
        invariant 0 <= i <= |all|
        invariant grouped == Grouped(all[..i])
      {
        var t := all[i];
        assert all[..i + 1][..i] == all[..i];
        var q := BucketOf(t);
        if q.Some? {
          grouped := grouped.With(q.value, grouped.Get(q.value) + [NormalizeTask(t, q.value)]);
        }
        i := i + 1;
      }
      assert all[..|all|] == all;
      tasks := grouped;
    }

    /**
     * reloadAll: each collection whose request succeeded is replaced by its
     * normalised documents; the others stay as they are. `today` is the UTC
     * date key of the moment of the reload.
     */
    method ReloadAll(hb: Option<seq<ServerHabit>>, ex: Option<seq<ServerExpense>>,
                     nt: Option<seq<Note>>, today: string)
      modifies this
      ensures habits == if hb.Some? then MapSeq(hb.value, (h: ServerHabit) => NormalizeHabit(h, today)) else old(habits)
      ensures expenses == if ex.Some? then MapSeq(ex.value, (e: ServerExpense) => NormalizeExpense(e, today)) else old(expenses)
      ensures notes == if nt.Some? then nt.value else old(notes)
      ensures tasks == old(tasks)
    {
      if hb.Some? {
        habits := MapSeq(hb.value, (h: ServerHabit) => NormalizeHabit(h, today));
      }
      if ex.Some? {
        expenses := MapSeq(ex.value, (e: ServerExpense) => NormalizeExpense(e, today));
      }
      if nt.Some? {
        notes := nt.value;
      }
    }

    /** addHabitRemote: append only once the server has created the habit. */
    method AddHabitRemote(frequency: int, today: string, reply: Option<ServerHabit>)
      returns (r: Option<Habit>)
      modifies this
      ensures reply.None? ==> r.None? && habits == old(habits)
      ensures reply.Some? ==> (r == Some(CreatedHabit(reply.value, frequency, today))
                               && habits == old(habits) + [r.value])
      ensures tasks == old(tasks) && expenses == old(expenses) && notes == old(notes)
    {
      if reply.None? {
        return None;
      }
      var habit := CreatedHabit(reply.value, frequency, today);
      habits := habits + [habit];
      r := Some(habit);
    }

    /**
     * toggleHabitRemote: the optimistic local update of every habit with the
     * id; the server call's outcome is ignored.
     */
    method ToggleHabitRemote(id: int, a: DayArg, v: bool)
      modifies this
      ensures habits == ReplaceHabits(old(habits), id, (h: Habit) => ToggledHabit(h, a, v))
      ensures tasks == old(tasks) && expenses == old(expenses) && notes == old(notes)
    {
      habits := ReplaceHabits(habits, id, (h: Habit) => ToggledHabit(h, a, v));
    }

    /** deleteHabitRemote: removed before the request and never restored. */
    method DeleteHabitRemote(id: int)
      modifies this
      ensures habits == RemoveHabit(old(habits), id)
      ensures tasks == old(tasks) && expenses == old(expenses) && notes == old(notes)
    {
      habits := RemoveHabit(habits, id);
    }

    /** updateHabitRemote: merge only after the server accepted the update. */
    method UpdateHabitRemote(id: int, p: HabitPatch, ok: bool)
      modifies this
      ensures habits == if ok then ReplaceHabits(old(habits), id, (h: Habit) => PatchedHabit(h, p)) else old(habits)
      ensures tasks == old(tasks) && expenses == old(expenses) && notes == old(notes)
    {
      if ok {
        habits := ReplaceHabits(habits, id, (h: Habit) => PatchedHabit(h, p));
      }
    }

    /** addExpenseRemote: the item gets the server's id and, if given, its date. */
    method AddExpenseRemote(x: Expense, reply: Option<CreatedExpense>) returns (r: Option<Expense>)
      modifies this
      ensures reply.None? ==> r.None? && expenses == old(expenses)
      ensures reply.Some? ==> r.Some? && expenses == old(expenses) + [r.value]
      ensures reply.Some? ==>
        r.value == x.(id := reply.value.id, date := if reply.value.date != "" then reply.value.date else x.date)
      ensures habits == old(habits) && tasks == old(tasks) && notes == old(notes)
    {
      if reply.None? {
        return None;
      }
      var c := reply.value;
      var item := x.(id := c.id, date := if c.date != "" then c.date else x.date);
      expenses := expenses + [item];
      r := Some(item);
    }

    method DeleteExpenseRemote(id: int)
      modifies this
      ensures expenses == RemoveExpense(old(expenses), id)
      ensures habits == old(habits) && tasks == old(tasks) && notes == old(notes)
    {
      expenses := RemoveExpense(expenses, id);
    }

    /**
     * updateExpenseRemote: every field of the payload replaces the stored
     * one, and the id becomes the one the server returns.
     */
    method UpdateExpenseRemote(id: int, payload: Expense, reply: Option<int>)
      modifies this
      ensures expenses == if reply.Some? then ReplaceExpenses(old(expenses), id, payload.(id := reply.value))
                          else old(expenses)
      ensures habits == old(habits) && tasks == old(tasks) && notes == old(notes)
    {
      if reply.Some? {
        expenses := ReplaceExpenses(expenses, id, payload.(id := reply.value));
      }
    }

    method AddNoteRemote(reply: Option<Note>) returns (r: Option<Note>)
      modifies this
      ensures r == reply
      ensures notes == if reply.Some? then old(notes) + [reply.value] else old(notes)
      ensures habits == old(habits) && tasks == old(tasks) && expenses == old(expenses)
    {
      if reply.Some? {
        notes := notes + [reply.value];
      }
      r := reply;
    }

    /** updateNoteRemote with a whole note as payload. */
    method UpdateNoteRemote(id: int, payload: Note, ok: bool)
      modifies this
      ensures notes == if ok then ReplaceNotes(old(notes), id, payload) else old(notes)
      ensures habits == old(habits) && tasks == old(tasks) && expenses == old(expenses)
    {
      if ok {
        notes := ReplaceNotes(notes, id, payload);
      }
    }

    method DeleteNoteRemote(id: int)
      modifies this
      ensures notes == RemoveNote(old(notes), id)
      ensures habits == old(habits) && tasks == old(tasks) && expenses == old(expenses)
    {
      notes := RemoveNote(notes, id);
    }

    /** addTaskRemote: the created task joins the end of the bucket the server names. */
    method AddTaskRemote(reply: Option<QTask>) returns (r: Option<QTask>)
      modifies this
      ensures r == reply
      ensures reply.None? ==> tasks == old(tasks)
      ensures reply.Some? ==> tasks == old(tasks).With(reply.value.quadrant, old(tasks).Get(reply.value.quadrant) + [reply.value])
      ensures tasks.Total() == old(tasks).Total() + (if reply.Some? then 1 else 0)
      ensures habits == old(habits) && expenses == old(expenses) && notes == old(notes)
    {
      if reply.Some? {
        var c := reply.value;
        tasks := tasks.With(c.quadrant, tasks.Get(c.quadrant) + [c]);
      }
      r := reply;
    }

    /**
     * updateTaskRemote: the reply's fields are merged into the tasks with
     * the id in bucket q, which stay in q whatever quadrant the reply names.
     */
    method UpdateTaskRemote(id: int, q: Quadrant, reply: Option<QTask>)
      modifies this
      ensures tasks == if reply.Some? then old(tasks).With(q, MergeTaskInBucket(old(tasks).Get(q), id, reply.value))
                       else old(tasks)
      ensures tasks.Total() == old(tasks).Total()
      ensures habits == old(habits) && expenses == old(expenses) && notes == old(notes)
    {
      if reply.Some? {
        tasks := tasks.With(q, MergeTaskInBucket(tasks.Get(q), id, reply.value));
      }
    }

    /** deleteTaskRemote: optimistic removal from bucket q. */
    method DeleteTaskRemote(q: Quadrant, id: int)
      modifies this
      ensures tasks == old(tasks).With(q, RemoveTask(old(tasks).Get(q), id))
      ensures forall q' :: q' != q ==> tasks.Get(q') == old(tasks).Get(q')
      ensures habits == old(habits) && expenses == old(expenses) && notes == old(notes)
    {
      tasks := tasks.With(q, RemoveTask(tasks.Get(q), id));
    }
  }

  // ---------------------------------------------------------------------
  // filterBySpan (lines 44-67).
  // ---------------------------------------------------------------------

  datatype Span = Week | Month | Year | OtherSpan

  /** The local day number of an instant in milliseconds. */
  function DayOf(ms: int): int
  {
    FloorDiv(ms, MsPerDay)
  }

  /**
   * The window test as written: the week runs from the instant exactly
   * `getDay()` days before now to six days after that, both carrying the
   * current time of day; `None` is an Invalid Date, which no comparison
   * accepts.
   */
  predicate InSpanAsWritten(span: Span, d: Option<int>, now: int)
  {
    match span
    case Week =>
      var start := now - Weekday(DayOf(now)) * MsPerDay;
      d.Some? && start <= d.value <= start + 6 * MsPerDay
    case Month =>
      d.Some? && CivilFromDays(DayOf(d.value)).month == CivilFromDays(DayOf(now)).month
              && CivilFromDays(DayOf(d.value)).year == CivilFromDays(DayOf(now)).year
    case Year =>
      d.Some? && CivilFromDays(DayOf(d.value)).year == CivilFromDays(DayOf(now)).year
    case OtherSpan => true
  }

  function FilterBySpanAsWritten<T>(items: seq<T>, dateOf: T -> Option<int>, span: Span, now: int): (r: seq<T>)
    ensures multiset(r) <= multiset(items)
    ensures span == OtherSpan ==> r == items
  {
    if span == OtherSpan then items
    else Filter(items, (x: T) => InSpanAsWritten(span, dateOf(x), now))
  }

  /**
   * An item dated at midnight of the current week's Sunday is left out as
   * soon as the current time of day is past midnight.
   */
  lemma SundayMidnightExcludedAsWritten(now: int)
    requires now % MsPerDay > 0
    ensures !InSpanAsWritten(Week, Some(WeekStart(DayOf(now)) * MsPerDay), now)
  {
    var z := DayOf(now);
    assert now == z * MsPerDay + now % MsPerDay;
  }

  /** A concrete case: 1970-01-04 (a Sunday) at noon leaves out that Sunday's items. */
  lemma SundayMidnightExample()
    ensures WeekStart(DayOf(3 * MsPerDay + MsPerDay / 2)) == 3
    ensures !InSpanAsWritten(Week, Some(3 * MsPerDay), 3 * MsPerDay + MsPerDay / 2)
  {
    SundayMidnightExcludedAsWritten(3 * MsPerDay + MsPerDay / 2);
  }

  /**
   * The window test as intended: the week is the Sunday-to-Saturday week of
   * today's date, compared by calendar day.
   */
  predicate InSpan(span: Span, d: Option<int>, now: int)
  {
    match span
    case Week => d.Some? && WeekStart(DayOf(d.value)) == WeekStart(DayOf(now))
    case _ => InSpanAsWritten(span, d, now)
  }

  /** The intended window test on an item. */
  function InSpanOf<T>(dateOf: T -> Option<int>, span: Span, now: int): T -> bool
  {
    (x: T) => InSpan(span, dateOf(x), now)
  }

  /**
   * The items of the current span, in their original order: every span
   * but the three named ones keeps them all.
   */
  function FilterBySpan<T>(items: seq<T>, dateOf: T -> Option<int>, span: Span, now: int): (r: seq<T>)
    ensures r == Filter(items, InSpanOf(dateOf, span, now))
    ensures multiset(r) <= multiset(items)
    ensures forall i :: 0 <= i < |r| ==> InSpan(span, dateOf(r[i]), now)
    ensures forall i :: 0 <= i < |items| && InSpan(span, dateOf(items[i]), now) ==> items[i] in r
    ensures span == OtherSpan ==> r == items
  {
    if span == OtherSpan then
      FilterAllKept(items, InSpanOf(dateOf, span, now));
      items
    else Filter(items, InSpanOf(dateOf, span, now))
  }

  /** Each item of the span is kept as often as it occurs, and no other item is. */
  lemma FilterBySpanCounts<T>(items: seq<T>, dateOf: T -> Option<int>, span: Span, now: int, x: T)
    ensures multiset(FilterBySpan(items, dateOf, span, now))[x]
         == if InSpan(span, dateOf(x), now) then multiset(items)[x] else 0
  {
    FilterMultiplicity(items, InSpanOf(dateOf, span, now), x);
  }

  /** The intended week is the seven days from Sunday to Saturday of today's week. */
  lemma InSpanWeekDays(d: int, now: int)
    ensures InSpan(Week, Some(d), now)
        <==> WeekStart(DayOf(now)) <= DayOf(d) <= WeekStart(DayOf(now)) + 6
  {
    var s := WeekStart(DayOf(now));
    if s <= DayOf(d) <= s + 6 {
      WeekStartUnique(s, DayOf(d));
    }
  }

  /** Both tests agree on the month and year spans and on every other span. */
  lemma InSpanAgreesOutsideWeek(span: Span, d: Option<int>, now: int)
    requires span != Week
    ensures InSpan(span, d, now) == InSpanAsWritten(span, d, now)
  {
  }
}
