// The server's record types (backend/accounts/models.py): the defaults a new
// row takes for the fields the request leaves out, the closed choice sets of
// QuadrantTask.quadrant and Thought.category, the one-name-per-user
// constraint of the two category tables, the default orderings of expenses
// and achievements, and the display string of an expense.
//
// Dates are day numbers and timestamps are integers; amounts are integer
// cents (the DecimalField has two decimal places). A field the request omits
// is `None`; `auto_now_add` timestamps are parameters.

module Records {
  import opened Common
  import opened Dates
  import opened Store

  // ---------------------------------------------------------------------
  // Defaults.
  // ---------------------------------------------------------------------

  datatype HabitRow = HabitRow(id: int, owner: int, name: string, frequency: int, createdAt: int,
                               completedByDate: map<string, bool>, paused: bool)

  /** The value of an optional field, or its default. */
  function OrDefault<T>(given: Option<T>, default: T): (r: T)
    ensures given.Some? ==> r == given.value
    ensures given.None? ==> r == default
  {
    if given.Some? then given.value else default
  }

  /** A new habit row: frequency 1, an empty log and not paused unless given. */
  function NewHabit(id: int, owner: int, name: string, createdAt: int, frequency: Option<int>,
                    completedByDate: Option<map<string, bool>>, paused: Option<bool>): (r: HabitRow)
    ensures frequency.None? ==> r.frequency == 1
    ensures completedByDate.None? ==> r.completedByDate == map[]
    ensures paused.None? ==> !r.paused
    ensures r.owner == owner && r.name == name && r.createdAt == createdAt
  {
    HabitRow(id, owner, name, OrDefault(frequency, 1), createdAt,
             OrDefault(completedByDate, map[]), OrDefault(paused, false))
  }

  datatype NoteRow = NoteRow(id: int, owner: int, title: string, content: string, category: string,
                             color: string, pinned: bool, createdAt: int, updatedAt: int)

  /** A new note row: color '#fef08a' and not pinned unless given. */
  function NewNote(id: int, owner: int, title: string, content: string, category: string,
                   color: Option<string>, pinned: Option<bool>, now: int): (r: NoteRow)
    ensures color.None? ==> r.color == "#fef08a"
    ensures pinned.None? ==> !r.pinned
    ensures r.createdAt == now && r.updatedAt == now
  {
    NoteRow(id, owner, title, content, category, OrDefault(color, "#fef08a"), OrDefault(pinned, false), now, now)
  }

  datatype FinanceCategoryRow = FinanceCategoryRow(id: int, owner: int, name: string, color: string, budget: int)

  /** A new finance category row: color '#cbd5e0' and budget 0 unless given. */
  function NewFinanceCategory(id: int, owner: int, name: string, color: Option<string>,
                              budget: Option<int>): (r: FinanceCategoryRow)
    ensures color.None? ==> r.color == "#cbd5e0"
    ensures budget.None? ==> r.budget == 0
    ensures r.owner == owner && r.name == name
  {
    FinanceCategoryRow(id, owner, name, OrDefault(color, "#cbd5e0"), OrDefault(budget, 0))
  }

  datatype TaskCategoryRow = TaskCategoryRow(id: int, owner: int, name: string, color: string)

  // ---------------------------------------------------------------------
  // Choice sets.
  // ---------------------------------------------------------------------

  const QuadrantChoices: seq<string> :=
    ["urgent_important", "not_urgent_important", "urgent_not_important", "not_urgent_not_important"]

  /**
   * The stored quadrant of a new QuadrantTask: 'urgent_important' when
   * omitted, the given value when it is one of the four choices, and a
   * validation error (None) otherwise.
   */
  function QuadrantField(given: Option<string>): (r: Option<string>)
    ensures r.Some? ==> r.value in QuadrantChoices
    ensures given.None? ==> r == Some("urgent_important")
    ensures given.Some? ==> (r.Some? <==> given.value in QuadrantChoices)
    ensures given.Some? && r.Some? ==> r.value == given.value
  {
    if given.None? then Some("urgent_important")
    else if given.value in QuadrantChoices then given
    else None
  }

  /** The server's four choices are exactly the keys of the client's four quadrants. */
  lemma QuadrantChoicesAreQuadrantNames(s: string)
    ensures s in QuadrantChoices <==> exists q :: QuadrantName(q) == s
  {
    if s in QuadrantChoices {
      assert s == QuadrantName(UrgentImportant) || s == QuadrantName(NotUrgentImportant)
        || s == QuadrantName(UrgentNotImportant) || s == QuadrantName(NotUrgentNotImportant);
    }
  }

  const ThoughtCategories: seq<string> :=
    ["motivational", "focus", "calm", "gratitude", "confidence", "custom"]

  datatype ThoughtRow = ThoughtRow(id: int, owner: int, category: string, text: string, isActive: bool,
                                   createdAt: int, updatedAt: int)

  /**
   * A new thought: category 'motivational' when omitted, a validation error
   * for a value outside the six choices, and active unless given.
   */
  function NewThought(id: int, owner: int, text: string, category: Option<string>, isActive: Option<bool>,
                      now: int): (r: Option<ThoughtRow>)
    ensures r.Some? ==> r.value.category in ThoughtCategories
    ensures category.None? ==> r.Some? && r.value.category == "motivational"
    ensures category.Some? ==> (r.Some? <==> category.value in ThoughtCategories)
    ensures r.Some? && isActive.None? ==> r.value.isActive
  {
    var c := OrDefault(category, "motivational");
    if c in ThoughtCategories then Some(ThoughtRow(id, owner, c, text, OrDefault(isActive, true), now, now))
    else None
  }

  // ---------------------------------------------------------------------
  // One name per user in each category table.
  // ---------------------------------------------------------------------

  /** No two rows share both owner and name. */
  predicate UniquePerUser<T>(t: seq<T>, owner: T -> int, name: T -> string)
  {
    forall i, j :: 0 <= i < j < |t| ==> owner(t[i]) != owner(t[j]) || name(t[i]) != name(t[j])
  }

  predicate Taken<T>(t: seq<T>, owner: T -> int, name: T -> string, o: int, n: string)
  {
    exists i :: 0 <= i < |t| && owner(t[i]) == o && name(t[i]) == n
  }

  /**
   * An insert under `unique_together = ['user', 'name']`: an IntegrityError
   * (None) when the owner already has a row of that name, else the table
   * with the row added; the constraint keeps holding.
   */
  function InsertUnique<T>(t: seq<T>, row: T, owner: T -> int, name: T -> string): (r: Option<seq<T>>)
    ensures r.None? <==> Taken(t, owner, name, owner(row), name(row))
    ensures r.Some? ==> r.value == t + [row]
    ensures r.Some? && UniquePerUser(t, owner, name) ==> UniquePerUser(r.value, owner, name)
  {
    if Taken(t, owner, name, owner(row), name(row)) then None
    else
      var t' := t + [row];
      assert forall i :: 0 <= i < |t| ==> t'[i] == t[i];
      Some(t')
  }

  function FinanceOwner(c: FinanceCategoryRow): int { c.owner }
  function FinanceName(c: FinanceCategoryRow): string { c.name }
  function TaskCategoryOwner(c: TaskCategoryRow): int { c.owner }
  function TaskCategoryName(c: TaskCategoryRow): string { c.name }

  /** Two users may each have a finance category of the same name. */
  lemma SameNameOtherUser(t: seq<FinanceCategoryRow>, a: FinanceCategoryRow, b: FinanceCategoryRow)
    requires a.name == b.name && a.owner != b.owner
    requires !Taken(t, FinanceOwner, FinanceName, a.owner, a.name)
    requires !Taken(t, FinanceOwner, FinanceName, b.owner, b.name)
    ensures var r := InsertUnique(t, a, FinanceOwner, FinanceName);
      r.Some? && InsertUnique(r.value, b, FinanceOwner, FinanceName).Some?
  {
    var t' := t + [a];
    assert forall i :: 0 <= i < |t| ==> t'[i] == t[i];
  }

  /** A second task category of the same name for the same user is rejected. */
  lemma DuplicateTaskCategoryRejected(t: seq<TaskCategoryRow>, a: TaskCategoryRow, b: TaskCategoryRow)
    requires a.name == b.name && a.owner == b.owner
    requires !Taken(t, TaskCategoryOwner, TaskCategoryName, a.owner, a.name)
    ensures var r := InsertUnique(t, a, TaskCategoryOwner, TaskCategoryName);
      r.Some? && InsertUnique(r.value, b, TaskCategoryOwner, TaskCategoryName).None?
  {
    var t' := t + [a];
    assert t'[|t|] == a;
  }

  // ---------------------------------------------------------------------
  // Default orderings.
  // ---------------------------------------------------------------------

  datatype ExpenseRow = ExpenseRow(id: int, owner: int, title: string, amount: int, date: int,
                                   category: int, isRecurring: bool)

  /** `ordering = ['-date', '-id']`: a comes first. */
  predicate ExpenseBefore(a: ExpenseRow, b: ExpenseRow)
  {
    a.date > b.date || (a.date == b.date && a.id > b.id)
  }

  /** Rows with distinct ids are always ordered one way round, never both. */
  lemma ExpenseOrderTotal(a: ExpenseRow, b: ExpenseRow, c: ExpenseRow)
    ensures a.id != b.id ==> (ExpenseBefore(a, b) <==> !ExpenseBefore(b, a))
    ensures !ExpenseBefore(a, a)
    ensures ExpenseBefore(a, b) && ExpenseBefore(b, c) ==> ExpenseBefore(a, c)
  {
  }

  function ExpenseKey(e: ExpenseRow): Key { Key(-e.date, -e.id) }

  /** The rows as the default queryset lists them: newest date first, then highest id. */
  function OrderedExpenses(es: seq<ExpenseRow>): (r: seq<ExpenseRow>)
    ensures multiset(r) == multiset(es)
    ensures forall i, j :: 0 <= i < j < |r| ==>
      r[i].date > r[j].date || (r[i].date == r[j].date && r[i].id >= r[j].id)
  {
    SortByKeySorted(es, ExpenseKey);
    SortByKey(es, ExpenseKey)
  }

  datatype AchievementRow = AchievementRow(id: int, owner: int, title: string, description: string,
                                           dateEarned: int, category: string, createdAt: int)

  function AchievementKey(a: AchievementRow): Key { Key(-a.dateEarned, -a.createdAt) }

  /** `ordering = ['-date_earned', '-created_at']`. */
  function OrderedAchievements(s: seq<AchievementRow>): (r: seq<AchievementRow>)
    ensures multiset(r) == multiset(s)
    ensures forall i, j :: 0 <= i < j < |r| ==>
      r[i].dateEarned > r[j].dateEarned
      || (r[i].dateEarned == r[j].dateEarned && r[i].createdAt >= r[j].createdAt)
  {
    SortByKeySorted(s, AchievementKey);
    SortByKey(s, AchievementKey)
  }

  // ---------------------------------------------------------------------
  // Expense.__str__.
  // ---------------------------------------------------------------------

  /** `str(Decimal)` of an amount with two decimal places, from cents. */
  function DecimalStr(cents: int): (r: string)
  {
    var a := if cents < 0 then -cents else cents;
    (if cents < 0 then "-" else "") + (NatToStr(a / 100) + ("." + Pad2(a % 100)))
  }

  /** `"{username} - {title} - ${amount}"`. */
  function ExpenseStr(username: string, e: ExpenseRow): (r: string)
    ensures StartsWith(r, username + " - " + e.title + " - $")
    ensures ParseDecimal(r[|username + " - " + e.title + " - $"|..]) == Some(e.amount)
  {
    var head := username + " - " + e.title + " - $";
    var r := head + DecimalStr(e.amount);
    assert r[..|head|] == head && r[|head|..] == DecimalStr(e.amount);
    DecimalRoundTrip(e.amount);
    r
  }

  /** Reads `[-]digits.dd` back into cents. */
  function ParseDecimal(s: string): Option<int>
  {
    if s != [] && s[0] == '-' then
      match ParseUnsignedDecimal(s[1..])
      case Some(v) => Some(-v)
      case None => None
    else ParseUnsignedDecimal(s)
  }

  function ParseUnsignedDecimal(u: string): Option<int>
  {
    if |u| >= 4 && u[|u| - 3] == '.' && DigitsOnly(u[..|u| - 3]) && DigitsOnly(u[|u| - 2..])
    then Some(DigitsValue(u[..|u| - 3]) * 100 + DigitsValue(u[|u| - 2..]))
    else None
  }

  lemma Pad2Short(n: nat)
    requires n < 100
    ensures |Pad2(n)| == 2
  {
    if n >= 10 {
      assert NatToStr(n) == NatToStr(n / 10) + [DigitChar(n % 10)];
    }
  }

  lemma UnsignedDecimalRoundTrip(a: nat)
    ensures ParseUnsignedDecimal(NatToStr(a / 100) + ("." + Pad2(a % 100))) == Some(a)
  {
    var w, f := NatToStr(a / 100), Pad2(a % 100);
    Pad2Short(a % 100);
    DigitsOfNatToStr(a / 100);
    DecimalParts(w, f);
  }

  lemma DecimalParts(w: string, f: string)
    requires w != [] && DigitsOnly(w) && |f| == 2 && DigitsOnly(f)
    ensures ParseUnsignedDecimal(w + ("." + f)) == Some(DigitsValue(w) * 100 + DigitsValue(f))
  {
    DotSplit(w, f);
  }

  /** Where `w.ff` splits: the dot third from the end, the whole part before it, the cents after. */
  lemma DotSplit(w: string, f: string)
    requires w != [] && |f| == 2
    ensures var u := w + ("." + f);
      |u| >= 4 && u[|u| - 3] == '.' && u[..|u| - 3] == w && u[|u| - 2..] == f
  {
    var u := w + ("." + f);
    assert u[..|u| - 3] == w;
    assert u[|u| - 2..] == f;
  }

  /** Every amount reads back from its string. */
  lemma DecimalRoundTrip(cents: int)
    ensures ParseDecimal(DecimalStr(cents)) == Some(cents)
  {
    var a := if cents < 0 then -cents else cents;
    var u := NatToStr(a / 100) + ("." + Pad2(a % 100));
    UnsignedDecimalRoundTrip(a);
    if cents < 0 {
      assert DecimalStr(cents) == "-" + u;
      assert ("-" + u)[1..] == u;
    } else {
      assert DecimalStr(cents) == u;
      assert u[0] == NatToStr(a / 100)[0];
    }
  }
}
