// The expense tracker of src/features/expenses/Expenses.jsx: the spending
// total and the per-category statistics of the selected span, the searched
// and sorted list, adding an expense (with its fallback category), renaming
// a category with its expenses, editing an expense and the budget bars.
// Amounts and budgets are whole cents; `parseFloat` is the parameter
// `parseAmount` (None for NaN) and `new Date(s)` the parameter `parseDate`.

module Expenses {
  import opened Common
  import opened Store

  /** A finance category; `budget` is in cents, 0 when none is set. */
  datatype FinanceCategory = FinanceCategory(id: int, name: string, color: string, budget: int)

  const OtherName := "Other"
  const FallbackColor := "#cbd5e0"
  const OverBudgetColor := "#fc8181"

  function Abs(x: int): (r: int)
    ensures r >= 0 && (r == x || r == -x)
  {
    if x < 0 then -x else x
  }

  // ---------------------------------------------------------------------
  // totalExpenses (lines 41-46).
  // ---------------------------------------------------------------------

  function ExpenseDay(parseDate: string -> Option<int>): Expense -> Option<int>
  {
    (e: Expense) => parseDate(e.date)
  }

  /** filterBySpan(expenses): the expenses dated in the selected span. */
  function InPeriod(es: seq<Expense>, span: Span, now: int, parseDate: string -> Option<int>): (r: seq<Expense>)
    ensures multiset(r) <= multiset(es)
    ensures forall i :: 0 <= i < |r| ==> InSpan(span, parseDate(r[i].date), now)
    ensures forall i :: 0 <= i < |es| && InSpan(span, parseDate(es[i].date), now) ==> es[i] in r
  {
    FilterBySpan(es, ExpenseDay(parseDate), span, now)
  }

  predicate IsSpending(e: Expense)
  {
    e.amount < 0
  }

  function AbsAmount(e: Expense): int
  {
    Abs(e.amount)
  }

  /** What an expense adds to the spending total: its size if it is spending. */
  function SpendWeight(e: Expense): int
  {
    if e.amount < 0 then -e.amount else 0
  }

  /** The sum of the sizes of the spending expenses of the span. */
  function TotalSpent(es: seq<Expense>, span: Span, now: int, parseDate: string -> Option<int>): (r: int)
    ensures r == Sum(InPeriod(es, span, now, parseDate), SpendWeight)
    ensures r >= 0
  {
    var period := InPeriod(es, span, now, parseDate);
    SumOfFilter(period, IsSpending, AbsAmount, SpendWeight);
    SumNonNegative(period, SpendWeight);
    Sum(Filter(period, IsSpending), AbsAmount)
  }

  /** Every spending expense of the span is part of the total; income is not. */
  lemma SpendingCounted(es: seq<Expense>, span: Span, now: int, parseDate: string -> Option<int>, k: nat)
    requires k < |es| && es[k].amount < 0 && InSpan(span, parseDate(es[k].date), now)
    ensures TotalSpent(es, span, now, parseDate) >= -es[k].amount
  {
    var period := InPeriod(es, span, now, parseDate);
    var j :| 0 <= j < |period| && period[j] == es[k];
    SumAtLeastElement(period, SpendWeight, j);
  }

  function CategoryOf(e: Expense): CategoryRef
  {
    e.category
  }

  /** The total splits into the spending of each distinct category of the span. */
  lemma TotalSplitsByCategory(es: seq<Expense>, span: Span, now: int, parseDate: string -> Option<int>)
    ensures var period := InPeriod(es, span, now, parseDate);
      SumOverKeys(Distinct(MapSeq(period, CategoryOf)), period, CategoryOf, SpendWeight)
        == TotalSpent(es, span, now, parseDate)
  {
    GroupedSumIsTotal(InPeriod(es, span, now, parseDate), CategoryOf, SpendWeight);
  }

  // ---------------------------------------------------------------------
  // categoryStats (lines 70-77).
  // ---------------------------------------------------------------------

  /** `{ ...cat, total, avg, count }`. */
  datatype CategoryStat = CategoryStat(category: FinanceCategory, total: int, avg: real, count: nat)

  function StatOf(cat: FinanceCategory, period: seq<Expense>, mine: Expense -> bool): CategoryStat
  {
    var ms := Filter(period, mine);
    var total := Sum(ms, AbsAmount);
    CategoryStat(cat, total, Mean(total, |ms|), |ms|)
  }

  /** The test as written: `e.category === cat.id && e.amount < 0`. */
  function MatchesIdAsWritten(cat: FinanceCategory): Expense -> bool
  {
    (e: Expense) => e.category == ById(cat.id) && e.amount < 0
  }

  function CategoryStatsAsWritten(cats: seq<FinanceCategory>, es: seq<Expense>, span: Span, now: int,
                                  parseDate: string -> Option<int>): (r: seq<CategoryStat>)
    ensures |r| == |cats|
    ensures forall i :: 0 <= i < |cats| ==>
      r[i].category == cats[i]
      && r[i].count == Count(InPeriod(es, span, now, parseDate), MatchesIdAsWritten(cats[i]))
  {
    var period := InPeriod(es, span, now, parseDate);
    assert forall i :: 0 <= i < |cats| ==> CountedAsWritten(StatOf(cats[i], period, MatchesIdAsWritten(cats[i])), period, cats[i]) by {
      forall i | 0 <= i < |cats| {
        StatCountAsWritten(cats[i], period);
      }
    }
    seq(|cats|, i requires 0 <= i < |cats| => StatOf(cats[i], period, MatchesIdAsWritten(cats[i])))
  }

  predicate CountedAsWritten(st: CategoryStat, period: seq<Expense>, cat: FinanceCategory)
  {
    st.category == cat && st.count == Count(period, MatchesIdAsWritten(cat))
  }

  lemma StatCountAsWritten(cat: FinanceCategory, period: seq<Expense>)
    ensures CountedAsWritten(StatOf(cat, period, MatchesIdAsWritten(cat)), period, cat)
  {
    CountIsFilterLength(period, MatchesIdAsWritten(cat));
  }

  /**
   * An expense added through this page stores its category by name, so the
   * statistics as written never count it: one spending of 5.00 in "Food"
   * leaves "Food" at zero transactions.
   */
  lemma AddedExpenseIgnoredAsWritten()
    ensures var food := FinanceCategory(1, "Food", FallbackColor, 0);
      var e := Expense(7, ByName("Food"), -500, "2024-05-01", "", "", false);
      var r := CategoryStatsAsWritten([food], [e], OtherSpan, 0, (s: string) => None);
      r[0].count == 0 && r[0].total == 0
  {
    var food := FinanceCategory(1, "Food", FallbackColor, 0);
    var e := Expense(7, ByName("Food"), -500, "2024-05-01", "", "", false);
    var mine := MatchesIdAsWritten(food);
    assert !mine(e);
    assert [e][..0] == [];
    assert Filter([e], mine) == [];
  }

  /** The intended test: spending filed under the category's id or under its name. */
  function BelongsTo(cat: FinanceCategory): Expense -> bool
  {
    (e: Expense) => (e.category == ById(cat.id) || e.category == ByName(cat.name)) && e.amount < 0
  }

  /** An expense's size when it is the category's spending, else 0. */
  function SpendIn(cat: FinanceCategory): Expense -> int
  {
    (e: Expense) => if BelongsTo(cat)(e) then AbsAmount(e) else 0
  }

  /**
   * Per category: how many spending expenses of the span it holds, their
   * total size (never more than the span's whole spending, and at least one
   * cent per expense) and their mean.
   */
  function CategoryStats(cats: seq<FinanceCategory>, es: seq<Expense>, span: Span, now: int,
                         parseDate: string -> Option<int>): (r: seq<CategoryStat>)
    ensures |r| == |cats|
    ensures forall i :: 0 <= i < |cats| ==>
      r[i].category == cats[i]
      && r[i].count == Count(InPeriod(es, span, now, parseDate), BelongsTo(cats[i]))
      && r[i].total == Sum(InPeriod(es, span, now, parseDate), SpendIn(cats[i]))
      && r[i].count <= r[i].total <= TotalSpent(es, span, now, parseDate)
      && r[i].avg == Mean(r[i].total, r[i].count)
      && (r[i].count == 0 ==> r[i].total == 0 && r[i].avg == 0.0)
  {
    var period := InPeriod(es, span, now, parseDate);
    assert forall i :: 0 <= i < |cats| ==> BoundedStat(StatOf(cats[i], period, BelongsTo(cats[i])), period, cats[i]) by {
      forall i | 0 <= i < |cats| {
        StatBounds(cats[i], period);
      }
    }
    seq(|cats|, i requires 0 <= i < |cats| => StatOf(cats[i], period, BelongsTo(cats[i])))
  }

  predicate BoundedStat(st: CategoryStat, period: seq<Expense>, cat: FinanceCategory)
  {
    st.count == Count(period, BelongsTo(cat)) && st.total == Sum(period, SpendIn(cat))
    && st.count <= st.total <= Sum(period, SpendWeight)
  }

  lemma StatBounds(cat: FinanceCategory, period: seq<Expense>)
    ensures BoundedStat(StatOf(cat, period, BelongsTo(cat)), period, cat)
  {
    var ms := Filter(period, BelongsTo(cat));
    CountIsFilterLength(period, BelongsTo(cat));
    SumAtLeastLength(ms, AbsAmount);
    SumOfFilter(period, BelongsTo(cat), AbsAmount, SpendIn(cat));
    SumMonotone(period, SpendIn(cat), SpendWeight);
  }

  /** An expense added under a category's name counts towards that category. */
  lemma AddedExpenseCounted(cats: seq<FinanceCategory>, es: seq<Expense>, span: Span, now: int,
                            parseDate: string -> Option<int>, i: nat, k: nat)
    requires i < |cats| && k < |es|
    requires es[k].category == ByName(cats[i].name) && es[k].amount < 0
    requires InSpan(span, parseDate(es[k].date), now)
    ensures var r := CategoryStats(cats, es, span, now, parseDate);
      r[i].count >= 1 && r[i].total >= -es[k].amount
  {
    var period := InPeriod(es, span, now, parseDate);
    var ms := Filter(period, BelongsTo(cats[i]));
    assert es[k] in period;
    assert BelongsTo(cats[i])(es[k]);
    var j :| 0 <= j < |ms| && ms[j] == es[k];
    SumAtLeastElement(ms, AbsAmount, j);
    CountIsFilterLength(period, BelongsTo(cats[i]));
  }

  // ---------------------------------------------------------------------
  // getCategoryName (lines 35-39).
  // ---------------------------------------------------------------------

  /** `categories.find(c => c.id === id)`, as the index of the first match. */
  function FindCategoryById(cats: seq<FinanceCategory>, id: int): (r: Option<nat>)
    ensures r.Some? ==> r.value < |cats| && cats[r.value].id == id
                        && forall j :: 0 <= j < r.value ==> cats[j].id != id
    ensures r.None? ==> forall j :: 0 <= j < |cats| ==> cats[j].id != id
  {
    FindFirst(cats, (c: FinanceCategory) => c.id == id)
  }

  /** As written: only a non-zero id that some category has gives a name. */
  function CategoryNameAsWritten(cats: seq<FinanceCategory>, c: CategoryRef): (r: string)
    ensures c.ById? && c.catId != 0 && FindCategoryById(cats, c.catId).Some? ==>
      r == cats[FindCategoryById(cats, c.catId).value].name
    ensures !(c.ById? && c.catId != 0 && FindCategoryById(cats, c.catId).Some?) ==> r == OtherName
  {
    match c
    case ByName(n) => OtherName  // `categories.find(c => c.id === "Food")` finds none
    case ById(k) =>
      if k == 0 then OtherName
      else
        var f := FindCategoryById(cats, k);
        if f.Some? then cats[f.value].name else OtherName
  }

  /** A category stored by name shows as 'Other', whatever its name. */
  lemma NamedCategoryShownAsOther(cats: seq<FinanceCategory>, n: string)
    ensures CategoryNameAsWritten(cats, ByName(n)) == OtherName
  {
  }

  /** Intended: a stored name is the name; an id is looked up as before. */
  function CategoryName(cats: seq<FinanceCategory>, c: CategoryRef): (r: string)
    ensures c.ByName? && c.name != "" ==> r == c.name
    ensures c.ById? ==> r == CategoryNameAsWritten(cats, c)
    ensures c.ById? && c.catId != 0 && FindCategoryById(cats, c.catId).Some? ==>
      r == cats[FindCategoryById(cats, c.catId).value].name
    ensures c.ByName? ==> (r == OtherName <==> c.name == "" || c.name == OtherName)
    ensures c.ById? ==> (r == OtherName <==>
      c.catId == 0 || FindCategoryById(cats, c.catId).None?
      || cats[FindCategoryById(cats, c.catId).value].name == OtherName)
  {
    match c
    case ByName(n) => if n == "" then OtherName else n
    case ById(_) => CategoryNameAsWritten(cats, c)
  }

  // ---------------------------------------------------------------------
  // filteredAndSortedExpenses (lines 48-68).
  // ---------------------------------------------------------------------

  /** The category label of the page: `getCategoryName`, by id only, as written. */
  function LabelAsWritten(cats: seq<FinanceCategory>): (r: CategoryRef -> string)
    ensures forall c: CategoryRef :: c.ByName? ==> r(c) == OtherName
    ensures forall c: CategoryRef :: c.ById? ==> r(c) == CategoryName(cats, c)
  {
    (c: CategoryRef) => CategoryNameAsWritten(cats, c)
  }

  /** The intended label: a stored name as itself, an id looked up. */
  function LabelIntended(cats: seq<FinanceCategory>): (r: CategoryRef -> string)
    ensures forall c: CategoryRef :: c.ByName? && c.name != "" ==> r(c) == c.name
    ensures forall c: CategoryRef :: c.ById? ==> r(c) == LabelAsWritten(cats)(c)
  {
    (c: CategoryRef) => CategoryName(cats, c)
  }

  /** The search matches the description or the category label, ignoring case. */
  predicate MatchesSearch(nameOf: CategoryRef -> string, term: string, e: Expense)
  {
    Contains(Lower(e.description), Lower(term))
    || Contains(Lower(nameOf(e.category)), Lower(term))
  }

  predicate Shown(nameOf: CategoryRef -> string, term: string, filterCategory: string, e: Expense)
  {
    MatchesSearch(nameOf, term, e)
    && (filterCategory == "all" || nameOf(e.category) == filterCategory)
  }

  function ShownBy(nameOf: CategoryRef -> string, term: string, filterCategory: string): Expense -> bool
  {
    (e: Expense) => Shown(nameOf, term, filterCategory, e)
  }

  /** `'date-desc'`, `'date-asc'`, `'amount-desc'`, `'amount-asc'`, `'category'` and any other value. */
  datatype SortOrder = DateDesc | DateAsc | AmountDesc | AmountAsc | ByCategory | Unsorted

  /**
   * The sort key of an order; `stamp` is the time of a date string and
   * `rank` the collation position of a category.
   */
  function OrderKey(order: SortOrder, stamp: string -> int, rank: CategoryRef -> int): Expense -> Key
  {
    (e: Expense) =>
      match order
      case DateDesc => Key(-stamp(e.date), 0)
      case DateAsc => Key(stamp(e.date), 0)
      case AmountDesc => Key(-Abs(e.amount), 0)
      case AmountAsc => Key(Abs(e.amount), 0)
      case ByCategory => Key(rank(e.category), 0)
      case Unsorted => Key(0, 0)
  }

  /** What each order promises about neighbours in the list. */
  predicate InOrder(r: seq<Expense>, order: SortOrder, stamp: string -> int, rank: CategoryRef -> int)
  {
    match order
    case DateDesc => forall i, j :: 0 <= i < j < |r| ==> stamp(r[i].date) >= stamp(r[j].date)
    case DateAsc => forall i, j :: 0 <= i < j < |r| ==> stamp(r[i].date) <= stamp(r[j].date)
    case AmountDesc => forall i, j :: 0 <= i < j < |r| ==> Abs(r[i].amount) >= Abs(r[j].amount)
    case AmountAsc => forall i, j :: 0 <= i < j < |r| ==> Abs(r[i].amount) <= Abs(r[j].amount)
    case ByCategory => forall i, j :: 0 <= i < j < |r| ==> rank(r[i].category) <= rank(r[j].category)
    case Unsorted => true
  }

  lemma SortedIsInOrder(r: seq<Expense>, order: SortOrder, stamp: string -> int, rank: CategoryRef -> int)
    requires SortedByKey(r, OrderKey(order, stamp, rank))
    ensures InOrder(r, order, stamp, rank)
  {
    var key := OrderKey(order, stamp, rank);
    assert forall i, j :: 0 <= i < j < |r| ==> KeyLe(key(r[i]), key(r[j]));
  }

  /** The list in the chosen order; a comparator that always answers 0 keeps it as it is. */
  function Arranged(kept: seq<Expense>, order: SortOrder, stamp: string -> int, rank: CategoryRef -> int): (r: seq<Expense>)
    ensures multiset(r) == multiset(kept)
    ensures order == Unsorted ==> r == kept
    ensures InOrder(r, order, stamp, rank)
  {
    if order == Unsorted then kept
    else
      SortByKeySorted(kept, OrderKey(order, stamp, rank));
      SortedIsInOrder(SortByKey(kept, OrderKey(order, stamp, rank)), order, stamp, rank);
      SortByKey(kept, OrderKey(order, stamp, rank))
  }

  /**
   * The expenses the search and the category filter keep under a category
   * label (the page passes `LabelAsWritten(cats)`), all of them whatever
   * the span, each exactly as often as it occurs, in the chosen order.
   */
  function ListedExpenses(es: seq<Expense>, nameOf: CategoryRef -> string, term: string, filterCategory: string,
                          order: SortOrder, stamp: string -> int, rank: CategoryRef -> int): (r: seq<Expense>)
    ensures multiset(r) == multiset(Filter(es, ShownBy(nameOf, term, filterCategory)))
    ensures forall i :: 0 <= i < |r| ==> r[i] in es && Shown(nameOf, term, filterCategory, r[i])
    ensures forall i :: 0 <= i < |es| && Shown(nameOf, term, filterCategory, es[i]) ==> es[i] in r
    ensures order == Unsorted ==> r == Filter(es, ShownBy(nameOf, term, filterCategory))
    ensures InOrder(r, order, stamp, rank)
  {
    var kept := Filter(es, ShownBy(nameOf, term, filterCategory));
    var r := Arranged(kept, order, stamp, rank);
    SameMembers(r, kept);
    r
  }

  /** Clearing the search and the filter lists every expense. */
  lemma EmptySearchListsAll(es: seq<Expense>, nameOf: CategoryRef -> string, order: SortOrder,
                            stamp: string -> int, rank: CategoryRef -> int)
    ensures multiset(ListedExpenses(es, nameOf, "", "all", order, stamp, rank)) == multiset(es)
  {
    forall i | 0 <= i < |es| ensures ShownBy(nameOf, "", "all")(es[i]) {
      assert OccursAt(Lower(es[i].description), Lower(""), 0);
    }
    FilterAllKept(es, ShownBy(nameOf, "", "all"));
  }

  /**
   * As written, filtering by any category but 'Other' hides every expense
   * stored by name, which is how this page stores them: an expense filed
   * under "Food" is not listed under the filter "Food".
   */
  lemma NamedExpenseHiddenAsWritten(es: seq<Expense>, cats: seq<FinanceCategory>, term: string, filterCategory: string,
                                    order: SortOrder, stamp: string -> int, rank: CategoryRef -> int, k: nat)
    requires k < |es| && es[k].category.ByName?
    requires filterCategory != "all" && filterCategory != OtherName
    ensures es[k] !in ListedExpenses(es, LabelAsWritten(cats), term, filterCategory, order, stamp, rank)
  {
    assert !Shown(LabelAsWritten(cats), term, filterCategory, es[k]);
  }

  /** With the intended label, an expense stored by name is listed under that name. */
  lemma NamedExpenseListedIntended(es: seq<Expense>, cats: seq<FinanceCategory>,
                                   order: SortOrder, stamp: string -> int, rank: CategoryRef -> int, k: nat)
    requires k < |es| && es[k].category.ByName? && es[k].category.name != ""
    ensures es[k] in ListedExpenses(es, LabelIntended(cats), "", es[k].category.name, order, stamp, rank)
  {
    assert OccursAt(Lower(es[k].description), Lower(""), 0);
    assert Shown(LabelIntended(cats), "", es[k].category.name, es[k]);
  }

  // ---------------------------------------------------------------------
  // handleAddExpense (lines 99-136).
  // ---------------------------------------------------------------------

  datatype ExpenseForm = ExpenseForm(amount: string, category: string, date: string, time: string,
                                     description: string, isIncome: bool, isRecurring: bool)

  predicate NamedIn(cats: seq<FinanceCategory>, n: string)
  {
    exists i :: 0 <= i < |cats| && cats[i].name == n
  }

  /** Use an existing category, or create one with this name first. */
  datatype Resolution = UseCategory(name: string) | CreateCategory(name: string)

  /**
   * The selected category, else the first category's name; a choice that
   * names no category (or no choice at all, as 'Other') must be created.
   */
  function ResolveCategory(selected: string, cats: seq<FinanceCategory>): (r: Resolution)
    ensures r.UseCategory? ==> NamedIn(cats, r.name) && r.name != ""
    ensures selected != "" ==> r.name == selected && (r.UseCategory? <==> NamedIn(cats, selected))
    ensures selected == "" && cats != [] && cats[0].name != "" ==> r == UseCategory(cats[0].name)
    ensures selected == "" && (cats == [] || cats[0].name == "") ==> r == CreateCategory(OtherName)
  {
    var choice := if selected != "" then selected else if cats != [] then cats[0].name else "";
    if choice != "" && NamedIn(cats, choice) then UseCategory(choice)
    else CreateCategory(if choice != "" then choice else OtherName)
  }

  /** `isIncome ? Math.abs(x) : -Math.abs(x)`. */
  function SignedAmount(x: int, isIncome: bool): (r: int)
    ensures Abs(r) == Abs(x)
    ensures isIncome ==> r >= 0
    ensures !isIncome ==> r <= 0
  {
    if isIncome then Abs(x) else -Abs(x)
  }

  /**
   * What addFinanceCategoryRemote gives: the created category, a failure
   * (null), or nothing at all because the application context provides no
   * such helper, so that calling it throws and the handler stops silently.
   */
  datatype CategoryCreation = Created(category: FinanceCategory) | CreateFailed | HelperMissing

  /** The handler stops on invalid input, stops (alerting or not), or submits an expense. */
  datatype AddOutcome = Ignored | Stopped(alerted: bool) | Submitted(sent: Expense, stored: Option<Expense>)

  function NewExpense(form: ExpenseForm, name: string, cents: int, id: int): Expense
  {
    Expense(id, ByName(name), SignedAmount(cents, form.isIncome), form.date, form.time, form.description,
            form.isRecurring)
  }

  predicate AddInvalid(form: ExpenseForm, parseAmount: string -> Option<int>)
  {
    form.amount == "" || form.date == "" || parseAmount(form.amount).None?
  }

  /** The category the expense is filed under, when the handler gets that far. */
  function ChosenName(form: ExpenseForm, cats: seq<FinanceCategory>, creation: CategoryCreation): Option<string>
  {
    var res := ResolveCategory(form.category, cats);
    if res.UseCategory? then Some(res.name)
    else if creation.Created? then Some(creation.category.name)
    else None
  }

  /**
   * handleAddExpense: nothing happens without an amount, a date or a
   * number in the amount; a category that must be created and is not
   * stops the handler (with an alert when the helper answered null).
   * Otherwise the expense, stamped `nowMs`, filed under the chosen name and
   * signed by `isIncome`, goes to addExpenseRemote, whose `reply` decides
   * whether it reaches the store.
   */
  method HandleAddExpense(store: AppStore, form: ExpenseForm, cats: seq<FinanceCategory>, parseAmount: string -> Option<int>,
                          nowMs: int, creation: CategoryCreation, reply: Option<CreatedExpense>)
    returns (outcome: AddOutcome)
    modifies store
    ensures AddInvalid(form, parseAmount) ==> outcome == Ignored
    ensures !AddInvalid(form, parseAmount) && ChosenName(form, cats, creation).None? ==>
      outcome == Stopped(creation == CreateFailed)
    ensures !AddInvalid(form, parseAmount) && ChosenName(form, cats, creation).Some? ==>
      outcome.Submitted?
      && outcome.sent == NewExpense(form, ChosenName(form, cats, creation).value, parseAmount(form.amount).value, nowMs)
    ensures !outcome.Submitted? ==> store.expenses == old(store.expenses)
    ensures outcome.Submitted? && reply.None? ==> outcome.stored.None? && store.expenses == old(store.expenses)
    ensures outcome.Submitted? && reply.Some? ==>
      outcome.stored == Some(outcome.sent.(id := reply.value.id,
                                           date := if reply.value.date != "" then reply.value.date else form.date))
      && store.expenses == old(store.expenses) + [outcome.stored.value]
    ensures store.habits == old(store.habits) && store.tasks == old(store.tasks) && store.notes == old(store.notes)
  {
    if form.amount == "" || form.date == "" {
      return Ignored;
    }
    var parsed := parseAmount(form.amount);
    if parsed.None? {
      return Ignored;
    }
    var res := ResolveCategory(form.category, cats);
    var name := res.name;
    if res.CreateCategory? {
      match creation {
        case HelperMissing => return Stopped(false);
        case CreateFailed => return Stopped(true);
        case Created(c) => name := c.name;
      }
    }
    var sent := NewExpense(form, name, parsed.value, nowMs);
    var stored := store.AddExpenseRemote(sent, reply);
    outcome := Submitted(sent, stored);
  }

  /**
   * The editing branch of handleAddCategory: with a new name, an existing
   * category under the old name and the update helper available, every
   * expense filed under the old name is sent, renamed, to
   * updateExpenseRemote in turn; `replies[i]` is the server's answer to the
   * i-th of them (None past the end). Otherwise nothing changes.
   */
  method RenameCategory(store: AppStore, cats: seq<FinanceCategory>, oldName: string, newName: string, helperProvided: bool,
                        replies: seq<Option<int>>)
    modifies store
    ensures var affected := Filter(old(store.expenses), FiledUnder(oldName));
      store.expenses == if newName != "" && NamedIn(cats, oldName) && helperProvided
                        then Cascade(old(store.expenses), affected, newName, replies)
                        else old(store.expenses)
    ensures store.habits == old(store.habits) && store.tasks == old(store.tasks) && store.notes == old(store.notes)
  {
    if newName == "" || !NamedIn(cats, oldName) || !helperProvided {
      return;
    }
    var affected := Filter(store.expenses, FiledUnder(oldName));
    ghost var start := store.expenses;
    var i := 0;
    while i < |affected|
      invariant 0 <= i <= |affected|
      invariant store.expenses == Cascade(start, affected[..i], newName, replies)
      invariant store.habits == old(store.habits) && store.tasks == old(store.tasks)
      invariant store.notes == old(store.notes)
    {
      store.UpdateExpenseRemote(affected[i].id, Renamed(affected[i], newName), ReplyAt(replies, i));
      CascadeNext(start, affected, i, newName, replies);
      i := i + 1;
    }
    assert affected[..i] == affected;
  }

  /**
   * handleSaveEdit: the edited expense, as written, replaces the original
   * when the server answers; an unknown id or an amount that is not a
   * number changes nothing.
   */
  method HandleSaveEdit(store: AppStore, id: int, form: EditForm, parseAmount: string -> Option<int>, reply: Option<int>)
    modifies store
    ensures var k := FindExpense(old(store.expenses), id);
      var edited := if k.Some? then EditedExpenseAsWritten(old(store.expenses)[k.value], form, parseAmount) else None;
      store.expenses == if edited.Some? && reply.Some?
                        then ReplaceExpenses(old(store.expenses), id, edited.value.(id := reply.value))
                        else old(store.expenses)
    ensures store.habits == old(store.habits) && store.tasks == old(store.tasks) && store.notes == old(store.notes)
  {
    var k := FindExpense(store.expenses, id);
    if k.None? {
      return;
    }
    var edited := EditedExpenseAsWritten(store.expenses[k.value], form, parseAmount);
    if edited.None? {
      return;
    }
    store.UpdateExpenseRemote(id, edited.value, reply);
  }

  // ---------------------------------------------------------------------
  // Renaming a category (lines 138-156).
  // ---------------------------------------------------------------------

  function FiledUnder(name: string): Expense -> bool
  {
    (e: Expense) => e.category == ByName(name)
  }

  function Renamed(e: Expense, name: string): Expense
  {
    e.(category := ByName(name))
  }

  function ReplyAt(replies: seq<Option<int>>, i: nat): Option<int>
  {
    if i < |replies| then replies[i] else None
  }

  /** The store after the updates for `affected`, in order, each applied when answered. */
  function Cascade(es: seq<Expense>, affected: seq<Expense>, newName: string, replies: seq<Option<int>>): seq<Expense>
  {
    if affected == [] then es
    else
      var k := |affected| - 1;
      var prev := Cascade(es, affected[..k], newName, replies);
      match ReplyAt(replies, k)
      case None => prev
      case Some(n) => ReplaceExpenses(prev, affected[k].id, Renamed(affected[k], newName).(id := n))
  }

  lemma CascadeNext(es: seq<Expense>, affected: seq<Expense>, i: nat, newName: string, replies: seq<Option<int>>)
    requires i < |affected|
    ensures var prev := Cascade(es, affected[..i], newName, replies);
      Cascade(es, affected[..i + 1], newName, replies)
        == if ReplyAt(replies, i).Some?
           then ReplaceExpenses(prev, affected[i].id, Renamed(affected[i], newName).(id := ReplyAt(replies, i).value))
           else prev
  {
    assert affected[..i + 1][..i] == affected[..i];
  }

  predicate UniqueExpenseIds(es: seq<Expense>)
  {
    forall i, j :: 0 <= i < j < |es| ==> es[i].id != es[j].id
  }

  function RenameIfFiled(oldName: string, newName: string): Expense -> Expense
  {
    (e: Expense) => if e.category == ByName(oldName) then Renamed(e, newName) else e
  }

  predicate IdAmong(x: int, s: seq<Expense>)
  {
    exists m :: 0 <= m < |s| && s[m].id == x
  }

  /** `r` is `es` with exactly the expenses whose id is among `done` renamed. */
  ghost predicate RenamedAmong(r: seq<Expense>, es: seq<Expense>, done: seq<Expense>, newName: string)
  {
    |r| == |es|
    && forall j :: 0 <= j < |es| ==> r[j] == if IdAmong(es[j].id, done) then Renamed(es[j], newName) else es[j]
  }

  lemma SameIdSameExpense(es: seq<Expense>, i: nat, x: Expense)
    requires UniqueExpenseIds(es) && i < |es| && x in es && es[i].id == x.id
    ensures es[i] == x
  {
    var t :| 0 <= t < |es| && es[t] == x;
  }

  lemma IdAmongSnoc(x: int, pre: seq<Expense>, a: Expense)
    ensures IdAmong(x, pre + [a]) <==> IdAmong(x, pre) || x == a.id
  {
    var s := pre + [a];
    if IdAmong(x, pre) {
      var m :| 0 <= m < |pre| && pre[m].id == x;
      assert s[m] == pre[m];
    }
    if x == a.id {
      assert s[|pre|] == a;
    }
    if IdAmong(x, s) && x != a.id {
      var m :| 0 <= m < |s| && s[m].id == x;
      assert m < |pre| && pre[m] == s[m];
    }
  }

  /** One answered update renames one more expense. */
  lemma CascadeStep(es: seq<Expense>, prev: seq<Expense>, pre: seq<Expense>, a: Expense, newName: string)
    requires UniqueExpenseIds(es) && a in es
    requires RenamedAmong(prev, es, pre, newName)
    ensures RenamedAmong(ReplaceExpenses(prev, a.id, Renamed(a, newName)), es, pre + [a], newName)
  {
    var r := ReplaceExpenses(prev, a.id, Renamed(a, newName));
    forall j | 0 <= j < |es|
      ensures r[j] == if IdAmong(es[j].id, pre + [a]) then Renamed(es[j], newName) else es[j]
    {
      IdAmongSnoc(es[j].id, pre, a);
      assert prev[j].id == es[j].id;
      if es[j].id == a.id {
        SameIdSameExpense(es, j, a);
      }
    }
  }

  lemma {:induction false} CascadeAsRenaming(es: seq<Expense>, affected: seq<Expense>, newName: string,
                                             replies: seq<Option<int>>)
    requires UniqueExpenseIds(es)
    requires forall m :: 0 <= m < |affected| ==> affected[m] in es && ReplyAt(replies, m) == Some(affected[m].id)
    ensures RenamedAmong(Cascade(es, affected, newName, replies), es, affected, newName)
  {
    if affected == [] {
      assert forall j :: 0 <= j < |es| ==> !IdAmong(es[j].id, affected);
    } else {
      var k := |affected| - 1;
      var pre := affected[..k];
      assert forall m :: 0 <= m < k ==> pre[m] == affected[m];
      CascadeAsRenaming(es, pre, newName, replies);
      assert affected == pre + [affected[k]];
      CascadeStep(es, Cascade(es, pre, newName, replies), pre, affected[k], newName);
    }
  }

  /**
   * With every update answered under the expense's own id and ids unique,
   * the cascade renames exactly the expenses filed under the old name and
   * leaves every other expense as it was.
   */
  lemma RenameReachesEveryExpense(es: seq<Expense>, oldName: string, newName: string, replies: seq<Option<int>>)
    requires UniqueExpenseIds(es)
    requires var affected := Filter(es, FiledUnder(oldName));
      forall m :: 0 <= m < |affected| ==> ReplyAt(replies, m) == Some(affected[m].id)
    ensures Cascade(es, Filter(es, FiledUnder(oldName)), newName, replies) == MapSeq(es, RenameIfFiled(oldName, newName))
  {
    var affected := Filter(es, FiledUnder(oldName));
    CascadeAsRenaming(es, affected, newName, replies);
    var r := Cascade(es, affected, newName, replies);
    forall j | 0 <= j < |es| ensures r[j] == RenameIfFiled(oldName, newName)(es[j]) {
      AmongIffFiled(es, oldName, j);
    }
  }

  /** An expense's id is among those filed under a name exactly when it is filed there. */
  lemma AmongIffFiled(es: seq<Expense>, oldName: string, j: nat)
    requires UniqueExpenseIds(es) && j < |es|
    ensures IdAmong(es[j].id, Filter(es, FiledUnder(oldName))) <==> es[j].category == ByName(oldName)
  {
    var affected := Filter(es, FiledUnder(oldName));
    if IdAmong(es[j].id, affected) {
      var m :| 0 <= m < |affected| && affected[m].id == es[j].id;
      SameIdSameExpense(es, j, affected[m]);
    }
    if es[j].category == ByName(oldName) {
      assert FiledUnder(oldName)(es[j]);
      var m :| 0 <= m < |affected| && affected[m] == es[j];
    }
  }

  // ---------------------------------------------------------------------
  // handleSaveEdit (lines 158-175) and updateExpenseRemote.
  // ---------------------------------------------------------------------

  /**
   * The amount field of the edit form: the size the pencil button put there
   * (a number), or the text typed over it.
   */
  datatype AmountEntry = AsFilled(size: nat) | Typed(text: string)

  /**
   * The edit form once the pencil button has filled it (lines 538-545):
   * amount, category, date, time and description. Typing replaces a field
   * (the category with the chosen name); nothing puts a recurring flag in it.
   */
  datatype EditForm = EditForm(amount: AmountEntry, category: CategoryRef, date: string, time: string,
                               description: string)

  /** The form as the pencil button fills it for e (`time || ''` is `time`, "" standing for none). */
  function PrefilledForm(e: Expense): EditForm
  {
    EditForm(AsFilled(Abs(e.amount)), e.category, e.date, e.time, e.description)
  }

  /** `expenses.find(e => e.id === id)`, as the index of the first match. */
  function FindExpense(es: seq<Expense>, id: int): (r: Option<nat>)
    ensures r.Some? ==> r.value < |es| && es[r.value].id == id
                        && forall j :: 0 <= j < r.value ==> es[j].id != id
    ensures r.None? ==> forall j :: 0 <= j < |es| ==> es[j].id != id
  {
    FindFirst(es, (e: Expense) => e.id == id)
  }

  /**
   * The saved amount: the size in the form, or the typed one (None when it
   * is not a number), positive only when the original was income.
   */
  function EditedAmount(original: Expense, entry: AmountEntry, parseAmount: string -> Option<int>): (r: Option<int>)
    ensures entry.AsFilled? ==> r == Some(if original.amount > 0 then entry.size as int else -(entry.size as int))
    ensures entry.Typed? ==> (r.None? <==> parseAmount(entry.text).None?)
    ensures entry.Typed? && r.Some? ==> Abs(r.value) == Abs(parseAmount(entry.text).value)
    ensures r.Some? && original.amount > 0 ==> r.value >= 0
    ensures r.Some? && original.amount <= 0 ==> r.value <= 0
  {
    var parsed := match entry
      case AsFilled(n) => Some(n as int)
      case Typed(t) => parseAmount(t);
    var sign := if original.amount > 0 then 1 else -1;
    if parsed.None? then None else Some(sign * Abs(parsed.value))
  }

  /** The amount the form was filled with is saved exactly as it was. */
  lemma UntouchedAmountKept(e: Expense, parseAmount: string -> Option<int>)
    ensures EditedAmount(e, AsFilled(Abs(e.amount)), parseAmount) == Some(e.amount)
  {
  }

  /** A zero-sized expense becomes spending once a non-zero amount is typed. */
  lemma ZeroAmountBecomesSpending(e: Expense, s: string, parseAmount: string -> Option<int>)
    requires e.amount == 0 && parseAmount(s).Some? && parseAmount(s).value != 0
    ensures EditedAmount(e, Typed(s), parseAmount).value < 0
  {
  }

  /**
   * The expense handleSaveEdit sends, as written, and that the store merges
   * over the original: the form's fields with `isRecurring:
   * editForm.isRecurring`, which the form never holds, so the flag is
   * `undefined` (read as false, and sent as `is_recurring: false`); None
   * when the typed amount is not a number.
   */
  function EditedExpenseAsWritten(e: Expense, form: EditForm, parseAmount: string -> Option<int>): (r: Option<Expense>)
    ensures r.None? <==> form.amount.Typed? && parseAmount(form.amount.text).None?
    ensures r.Some? ==>
      r.value.id == e.id && Some(r.value.amount) == EditedAmount(e, form.amount, parseAmount)
      && r.value.category == form.category && r.value.date == form.date && r.value.time == form.time
      && r.value.description == form.description && !r.value.isRecurring
  {
    var amount := EditedAmount(e, form.amount, parseAmount);
    if amount.None? then None
    else Some(Expense(e.id, form.category, amount.value, form.date, form.time, form.description, false))
  }

  /**
   * As written, saving an edit of a recurring expense, even one that
   * changes nothing, clears its recurring flag.
   */
  lemma SaveClearsRecurringAsWritten(e: Expense, parseAmount: string -> Option<int>)
    requires e.isRecurring
    ensures EditedExpenseAsWritten(e, PrefilledForm(e), parseAmount) == Some(e.(isRecurring := false))
    ensures EditedExpenseAsWritten(e, PrefilledForm(e), parseAmount) != Some(e)
  {
    UntouchedAmountKept(e, parseAmount);
  }

  /**
   * The intended edit: the form's fields, the amount as above, and the
   * expense's own recurring flag; None when the typed amount is not a number.
   */
  function EditedExpense(e: Expense, form: EditForm, parseAmount: string -> Option<int>): (r: Option<Expense>)
    ensures r.None? <==> form.amount.Typed? && parseAmount(form.amount.text).None?
    ensures r.Some? ==>
      r.value.id == e.id && Some(r.value.amount) == EditedAmount(e, form.amount, parseAmount)
      && r.value.category == form.category && r.value.date == form.date && r.value.time == form.time
      && r.value.description == form.description && r.value.isRecurring == e.isRecurring
  {
    var amount := EditedAmount(e, form.amount, parseAmount);
    if amount.None? then None
    else Some(Expense(e.id, form.category, amount.value, form.date, form.time, form.description, e.isRecurring))
  }

  /** Saving the form as the pencil button filled it leaves the expense as it was. */
  lemma PrefilledEditIsIdentity(e: Expense, parseAmount: string -> Option<int>)
    ensures EditedExpense(e, PrefilledForm(e), parseAmount) == Some(e)
  {
    UntouchedAmountKept(e, parseAmount);
  }

  /** The intended edit and the one as written differ in the recurring flag only. */
  lemma EditDiffersOnlyInFlag(e: Expense, form: EditForm, parseAmount: string -> Option<int>)
    ensures EditedExpense(e, form, parseAmount).Some? <==> EditedExpenseAsWritten(e, form, parseAmount).Some?
    ensures EditedExpense(e, form, parseAmount).Some? ==>
      EditedExpense(e, form, parseAmount).value
        == EditedExpenseAsWritten(e, form, parseAmount).value.(isRecurring := e.isRecurring)
  {
  }

  // ---------------------------------------------------------------------
  // The budget bar (lines 316-318).
  // ---------------------------------------------------------------------

  /** `cat.budget ? Math.min(total / budget * 100, 100) : 0`, as a percentage. */
  function BarWidth(total: int, budget: int): (r: real)
    ensures budget == 0 ==> r == 0.0
    ensures budget != 0 ==> r <= 100.0
    ensures budget > 0 && total >= 0 ==> r >= 0.0
    ensures budget > 0 ==> (r == 100.0 <==> total >= budget)
    ensures budget > 0 && total < budget ==> r * (budget as real) == (total as real) * 100.0
  {
    if budget == 0 then 0.0
    else
      var pct := (total as real / budget as real) * 100.0;
      BarRatio(total, budget);
      if pct < 100.0 then pct else 100.0
  }

  lemma BarRatio(total: int, budget: int)
    requires budget != 0
    ensures var pct := (total as real / budget as real) * 100.0;
      pct * (budget as real) == (total as real) * 100.0
      && (budget > 0 ==> (pct < 100.0 <==> total < budget))
  {
    var q := total as real / budget as real;
    assert q * (budget as real) == total as real;
  }

  /** Over budget the bar is red; otherwise it takes the category's colour. */
  function BarColor(cat: FinanceCategory, total: int): (r: string)
    ensures total > cat.budget ==> r == OverBudgetColor
    ensures total <= cat.budget ==> r == cat.color
  {
    if total > cat.budget then OverBudgetColor else cat.color
  }

  /** A category with a budget shows a red bar exactly when it is past its budget, and then a full one. */
  lemma RedBarIsFull(cat: FinanceCategory, total: int)
    requires cat.budget > 0 && total > cat.budget
    ensures BarWidth(total, cat.budget) == 100.0 && BarColor(cat, total) == OverBudgetColor
  {
  }
}
