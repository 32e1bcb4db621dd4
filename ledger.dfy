// The server's view logic (backend/accounts/views.py): the per-date habit
// ledger that the `toggle` action edits in place, the per-user querysets and
// the filters of the thought and achievement lists, and what `perform_create`
// does for a request without a logged-in user.
//
// The requesting user is `Option<int>` (None for an anonymous request); the
// ORM is a sequence of rows; a status code stands for each response.

module Ledger {
  import opened Common
  import opened Records

  /** The strings the view reads as true, compared in lower case. */
  predicate IsTrueWord(s: string)
  {
    var l := Lower(s);
    l == "1" || l == "true" || l == "yes" || l == "on"
  }

  /**
   * The toggle's `value`: True when absent; a string is true iff its lower
   * case is '1', 'true', 'yes' or 'on'; other values by Python truthiness.
   */
  function CoerceValue(raw: Option<Json>): (v: bool)
    ensures raw.None? ==> v
    ensures raw.Some? && raw.value.JStr? ==> (v <==> IsTrueWord(raw.value.s))
    ensures raw.Some? && raw.value.JBool? ==> v == raw.value.b
    ensures raw == Some(JNull) ==> !v
  {
    if raw.None? then true
    else match raw.value
      case JBool(b) => b
      case JNum(n) => n != 0
      case JStr(s) => IsTrueWord(s)
      case JNull => false
  }

  lemma LowerUpper(s: string)
    ensures Lower(Upper(s)) == Lower(s)
  {
    forall i | 0 <= i < |s| ensures Lower(Upper(s))[i] == Lower(s)[i] {
      var c := s[i];
      if 'a' <= c <= 'z' {
        assert UpperChar(c) as int == c as int - 32;
      }
    }
  }

  /** Whether a string reads as true does not depend on its letter case. */
  lemma CoercionIgnoresCase(s: string)
    ensures CoerceValue(Some(JStr(Upper(s)))) == CoerceValue(Some(JStr(s)))
  {
    LowerUpper(s);
  }

  /** 'TRUE', 'Yes' and 'on' are true; 'false', '0' and '' are false. */
  lemma CoercionExamples()
    ensures CoerceValue(Some(JStr("TRUE"))) && CoerceValue(Some(JStr("Yes"))) && CoerceValue(Some(JStr("on")))
    ensures !CoerceValue(Some(JStr("false"))) && !CoerceValue(Some(JStr("0"))) && !CoerceValue(Some(JStr("")))
  {
    assert Lower("TRUE") == "true";
    assert Lower("Yes") == "yes";
    assert Lower("on") == "on";
    assert Lower("false") == "false";
    assert Lower("0") == "0";
  }

  // ---------------------------------------------------------------------
  // The ledger edit.
  // ---------------------------------------------------------------------

  /** `data[date] = True`, or `del data[date]` when present. */
  function ApplyToggle(data: map<string, bool>, date: string, v: bool): (r: map<string, bool>)
    ensures v ==> date in r && r[date]
    ensures !v ==> date !in r
    ensures forall k :: k != date ==> (k in r <==> k in data)
    ensures forall k :: k != date && k in data ==> r[k] == data[k]
  {
    if v then data[date := true]
    else if date in data then data - {date}
    else data
  }

  /** Applying the same edit twice leaves the ledger as applying it once. */
  lemma ApplyToggleIdempotent(data: map<string, bool>, date: string, v: bool)
    ensures ApplyToggle(ApplyToggle(data, date, v), date, v) == ApplyToggle(data, date, v)
  {
    var once := ApplyToggle(data, date, v);
    var twice := ApplyToggle(once, date, v);
    assert forall k :: k in twice <==> k in once;
  }

  /** Clearing an absent date leaves the ledger untouched. */
  lemma ClearAbsentIsNoOp(data: map<string, bool>, date: string)
    requires date !in data
    ensures ApplyToggle(data, date, false) == data
  {
  }

  /** Setting then clearing a date the ledger did not hold restores it. */
  lemma SetThenClear(data: map<string, bool>, date: string)
    requires date !in data
    ensures ApplyToggle(ApplyToggle(data, date, true), date, false) == data
  {
    var r := ApplyToggle(ApplyToggle(data, date, true), date, false);
    assert forall k :: k in r <==> k in data;
  }

  /** `if not date`: an absent or empty date is missing. */
  predicate DateGiven(date: Option<string>)
  {
    date.Some? && date.value != ""
  }

  /** The row `get_object` finds: the requesting user's habit with that id. */
  function FindOwned(rows: seq<HabitRow>, user: int, pk: int): (r: Option<nat>)
    ensures r.Some? ==> r.value < |rows| && rows[r.value].id == pk && rows[r.value].owner == user
    ensures r.None? ==> forall i :: 0 <= i < |rows| ==> rows[i].id != pk || rows[i].owner != user
  {
    if rows == [] then None
    else
      var k := |rows| - 1;
      if rows[k].id == pk && rows[k].owner == user then Some(k)
      else FindOwned(rows[..k], user, pk)
  }

  class HabitTable {
    var rows: seq<HabitRow>

    constructor(rows0: seq<HabitRow>)
      ensures rows == rows0
    {
      rows := rows0;
    }

    /**
     * The `toggle` action: 401 for an anonymous request, 404 when the user
     * has no habit with that id, 400 without a date, all before any change;
     * otherwise the edit is applied to that habit's ledger only, and 200.
     */
    method Toggle(user: Option<int>, pk: int, date: Option<string>, raw: Option<Json>) returns (status: int)
      modifies this
      ensures user.None? ==> status == 401
      ensures user.Some? && FindOwned(old(rows), user.value, pk).None? ==> status == 404
      ensures user.Some? && FindOwned(old(rows), user.value, pk).Some? && !DateGiven(date) ==> status == 400
      ensures status != 200 ==> rows == old(rows)
      ensures status == 200 <==>
        user.Some? && FindOwned(old(rows), user.value, pk).Some? && DateGiven(date)
      ensures status == 200 ==>
        var k := FindOwned(old(rows), user.value, pk).value;
        rows == old(rows)[k := old(rows)[k].(completedByDate :=
          ApplyToggle(old(rows)[k].completedByDate, date.value, CoerceValue(raw)))]
    {
      if user.None? {
        return 401;
      }
      var found := FindOwned(rows, user.value, pk);
      if found.None? {
        return 404;
      }
      if !DateGiven(date) {
        return 400;
      }
      var k := found.value;
      var value := CoerceValue(raw);
      var data := rows[k].completedByDate;
      if value {
        data := data[date.value := true];
      } else if date.value in data {
        data := data - {date.value};
      }
      rows := rows[k := rows[k].(completedByDate := data)];
      status := 200;
    }
  }

  /** Two toggles of the same date and value leave the table as one does. */
  method ToggleTwice(t: HabitTable, user: int, pk: int, date: string, raw: Option<Json>)
    returns (s1: int, s2: int)
    modifies t
    requires FindOwned(t.rows, user, pk).Some? && date != ""
    ensures s1 == 200 && s2 == 200
    ensures var k := FindOwned(old(t.rows), user, pk).value;
      t.rows == old(t.rows)[k := old(t.rows)[k].(completedByDate :=
        ApplyToggle(old(t.rows)[k].completedByDate, date, CoerceValue(raw)))]
  {
    s1 := t.Toggle(Some(user), pk, Some(date), raw);
    ghost var mid := t.rows;
    FindOwnedAfterUpdate(old(t.rows), user, pk, mid);
    s2 := t.Toggle(Some(user), pk, Some(date), raw);
    ghost var k := FindOwned(old(t.rows), user, pk).value;
    ApplyToggleIdempotent(old(t.rows)[k].completedByDate, date, CoerceValue(raw));
  }

  /** Editing a found row's ledger does not change which row is found. */
  lemma {:induction false} FindOwnedAfterUpdate(rows: seq<HabitRow>, user: int, pk: int, rows': seq<HabitRow>)
    requires |rows'| == |rows|
    requires forall i :: 0 <= i < |rows| ==> rows'[i].id == rows[i].id && rows'[i].owner == rows[i].owner
    ensures FindOwned(rows', user, pk) == FindOwned(rows, user, pk)
  {
    if rows != [] {
      var k := |rows| - 1;
      FindOwnedAfterUpdate(rows[..k], user, pk, rows'[..k]);
    }
  }

  // ---------------------------------------------------------------------
  // Querysets.
  // ---------------------------------------------------------------------

  /**
   * `get_queryset` of every view set: the requesting user's rows, and none
   * for an anonymous request.
   */
  function OwnRows<T>(rows: seq<T>, owner: T -> int, user: Option<int>): (r: seq<T>)
    ensures user.None? ==> r == []
    ensures forall i :: 0 <= i < |r| ==> r[i] in rows && user.Some? && owner(r[i]) == user.value
    ensures user.Some? ==> forall i :: 0 <= i < |rows| && owner(rows[i]) == user.value ==> rows[i] in r
  {
    if user.None? then [] else Filter(rows, (x: T) => owner(x) == user.value)
  }

  /** A user never sees another user's rows. */
  lemma OwnRowsSeparate<T>(rows: seq<T>, owner: T -> int, a: int, b: int, x: T)
    requires a != b && x in OwnRows(rows, owner, Some(a))
    ensures x !in OwnRows(rows, owner, Some(b))
  {
  }

  /**
   * Whether the thought list keeps only active thoughts: yes when the
   * `active` parameter is absent or reads as true.
   */
  predicate ActiveOnly(active: Option<string>)
  {
    active.None? || IsTrueWord(active.value)
  }

  predicate ThoughtShown(t: ThoughtRow, user: int, category: Option<string>, active: Option<string>)
  {
    t.owner == user
    && (category.Some? && category.value != "" ==> t.category == category.value)
    && (ActiveOnly(active) ==> t.isActive)
  }

  /**
   * The thought queryset: the user's thoughts, of the given category when
   * one is given, and active ones unless `active` is given and not true.
   * The chained `filter` calls keep the rows meeting all their conditions,
   * in the order of `rows`. `rows` stands for the table as the model's
   * default ordering returns it, most recently updated first
   * (`ordering = ['-updated_at']`); the update stamps are not modelled.
   */
  function ThoughtQuery(rows: seq<ThoughtRow>, user: Option<int>, category: Option<string>,
                        active: Option<string>): (r: seq<ThoughtRow>)
    ensures user.None? ==> r == []
    ensures forall i :: 0 <= i < |r| ==> r[i] in rows && user.Some? && ThoughtShown(r[i], user.value, category, active)
    ensures user.Some? ==> forall i :: 0 <= i < |rows| && ThoughtShown(rows[i], user.value, category, active) ==> rows[i] in r
  {
    if user.None? then []
    else Filter(rows, (t: ThoughtRow) => ThoughtShown(t, user.value, category, active))
  }

  /** `?active=false` (or any word not read as true) lists inactive thoughts too. */
  lemma InactiveListedWhenAsked(rows: seq<ThoughtRow>, user: int, t: ThoughtRow)
    requires t in rows && t.owner == user && !t.isActive
    ensures t in ThoughtQuery(rows, Some(user), None, Some("false"))
    ensures t !in ThoughtQuery(rows, Some(user), None, None)
  {
    assert Lower("false") == "false";
    var i :| 0 <= i < |rows| && rows[i] == t;
    assert ThoughtShown(rows[i], user, None, Some("false"));
  }

  /**
   * The achievement queryset: the user's achievements, on the given date
   * when one is given. `day` reads the date parameter; a parameter it cannot
   * read is a validation error (None).
   */
  function AchievementQuery(rows: seq<AchievementRow>, user: Option<int>, date: Option<string>,
                            day: string -> Option<int>): (r: Option<seq<AchievementRow>>)
    ensures user.None? ==> r == Some([])
    ensures user.Some? && (date.None? || date.value == "") ==> r == Some(OwnRows(rows, AchievementOwner, user))
    ensures user.Some? && date.Some? && date.value != "" ==>
      (r.None? <==> day(date.value).None?)
    ensures r.Some? ==> forall i :: 0 <= i < |r.value| ==>
      r.value[i] in rows && user.Some? && r.value[i].owner == user.value
      && (date.Some? && date.value != "" ==> Some(r.value[i].dateEarned) == day(date.value))
    ensures r.Some? && user.Some? ==> forall i :: 0 <= i < |rows| ==>
      (rows[i].owner == user.value
       && (date.Some? && date.value != "" ==> Some(rows[i].dateEarned) == day(date.value))
       ==> rows[i] in r.value)
  {
    if user.None? then Some([])
    else
      var qs := OwnRows(rows, AchievementOwner, user);
      if date.None? || date.value == "" then Some(qs)
      else match day(date.value)
        case None => None
        case Some(d) =>
          var r := Filter(qs, (a: AchievementRow) => a.dateEarned == d);
          assert forall i :: 0 <= i < |r| ==> r[i] in qs;
          Some(r)
  }

  function AchievementOwner(a: AchievementRow): int { a.owner }

  // ---------------------------------------------------------------------
  // perform_create.
  // ---------------------------------------------------------------------

  /** What a view set does with an anonymous create: raise, or skip the save. */
  datatype AnonymousCreate = Raise | Skip

  /** Expense and Note skip the save; every other view set raises PermissionError. */
  datatype ViewSet = Habits | Expenses | FinanceCategories | TaskCategories | Tasks | Notes
                   | Quadrants | QuadrantTasks | Thoughts | Achievements

  function AnonymousPolicy(v: ViewSet): (p: AnonymousCreate)
    ensures p == Skip <==> v == Expenses || v == Notes
  {
    if v == Expenses || v == Notes then Skip else Raise
  }

  datatype CreateOutcome = Saved | Raised | NotSaved

  class Table<T> {
    var rows: seq<T>

    constructor(rows0: seq<T>)
      ensures rows == rows0
    {
      rows := rows0;
    }

    /**
     * perform_create: a logged-in user's row is saved with that user as its
     * owner; an anonymous request raises or saves nothing, by view set.
     */
    method PerformCreate(v: ViewSet, user: Option<int>, row: T, withOwner: (T, int) -> T)
      returns (outcome: CreateOutcome)
      modifies this
      ensures user.Some? ==> outcome == Saved && rows == old(rows) + [withOwner(row, user.value)]
      ensures user.None? ==> rows == old(rows)
      ensures user.None? ==> (outcome == Raised <==> AnonymousPolicy(v) == Raise)
      ensures user.None? ==> (outcome == NotSaved <==> AnonymousPolicy(v) == Skip)
    {
      if user.Some? {
        rows := rows + [withOwner(row, user.value)];
        outcome := Saved;
      } else if AnonymousPolicy(v) == Raise {
        outcome := Raised;
      } else {
        outcome := NotSaved;
      }
    }
  }
}
