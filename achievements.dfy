// The accomplishments page of src/features/achievements/Achievements.jsx:
// per-date counts for the calendar, the category filter of the selected
// day, the category list, adding an achievement for the selected day, and
// the planned items that become achievements when ticked. The selected
// calendar day is kept as its key, `Dates.DateKey` of the civil date (the
// `formatDateLocal` layout); the achievements of that day and the replies
// of the remote helpers are parameters.

module Achievements {
  import opened Common
  import opened Dates

  datatype Achievement = Achievement(id: int, title: string, category: string, description: string,
                                     dateEarned: string)

  /** The body sent to create an achievement. */
  datatype Payload = Payload(title: string, category: string, description: string, dateEarned: string)

  /** The add form; all three inputs start empty. */
  datatype Form = Form(title: string, category: string, description: string)

  const EmptyForm := Form("", "", "")

  datatype PlannedItem = PlannedItem(id: int, text: string, completed: bool)

  /** The remote call a toggle makes. */
  datatype ToggleAction = NoAction | CreateAchievement(payload: Payload) | DeleteAchievement(id: int)

  const AllCategories := "All"
  const DefaultCategory := "General"

  // ---------------------------------------------------------------------
  // achievementsByDate (lines 52-62).
  // ---------------------------------------------------------------------

  function EarnedOn(d: string): Achievement -> bool
  {
    (a: Achievement) => a.dateEarned == d
  }

  /** The reduce callback: one more for the achievement's date, if it has one. */
  function Tally(acc: map<string, nat>, a: Achievement): map<string, nat>
  {
    if a.dateEarned == "" then acc
    else acc[a.dateEarned := if a.dateEarned in acc then acc[a.dateEarned] + 1 else 1]
  }

  /** counts holds, for every date earned in s, the number of achievements earned on it. */
  ghost predicate CountsOf(counts: map<string, nat>, s: seq<Achievement>)
  {
    (forall d :: d in counts <==> d != "" && Count(s, EarnedOn(d)) > 0)
    && (forall d :: d in counts ==> counts[d] == Count(s, EarnedOn(d)))
  }

  /**
   * The calendar's count per date: a date is a key exactly when some
   * achievement was earned on it (an achievement without a date, '', is
   * skipped), and its count is the number of achievements earned on it.
   */
  method AchievementsByDate(all: seq<Achievement>) returns (counts: map<string, nat>)
    ensures forall d :: d in counts <==> d != "" && Count(all, EarnedOn(d)) > 0
    ensures forall d :: d in counts ==> counts[d] == Count(all, EarnedOn(d))
  {
    counts := map[];
    var i := 0;
    while i < |all|
      invariant 0 <= i <= |all|
      invariant CountsOf(counts, all[..i])
    {
      TallyStep(counts, all, i);
      counts := Tally(counts, all[i]);
      i := i + 1;
    }
    assert all[..i] == all;
  }

  lemma TallyStep(counts: map<string, nat>, all: seq<Achievement>, i: nat)
    requires i < |all| && CountsOf(counts, all[..i])
    ensures CountsOf(Tally(counts, all[i]), all[..i + 1])
  {
    var next := Tally(counts, all[i]);
    forall d
      ensures d in next <==> d != "" && Count(all[..i + 1], EarnedOn(d)) > 0
      ensures d in next ==> next[d] == Count(all[..i + 1], EarnedOn(d))
    {
      CountPrefixStep(all, i, EarnedOn(d));
    }
  }

  function DateOf(a: Achievement): string
  {
    a.dateEarned
  }

  function DatedWeight(a: Achievement): int
  {
    if a.dateEarned != "" then 1 else 0
  }

  predicate IsDated(a: Achievement)
  {
    a.dateEarned != ""
  }

  /** A date's count is the dated weight summed over the achievements of that date. */
  lemma {:induction false} DateCountIsSumWhere(all: seq<Achievement>, d: string)
    requires d != ""
    ensures Count(all, EarnedOn(d)) == SumWhere(all, DateOf, d, DatedWeight)
  {
    if all != [] {
      DateCountIsSumWhere(all[..|all| - 1], d);
    }
  }

  /** The dated weight sums to the number of dated achievements. */
  lemma {:induction false} DatedWeightCounts(all: seq<Achievement>)
    ensures Sum(all, DatedWeight) == Count(all, IsDated)
  {
    if all != [] {
      DatedWeightCounts(all[..|all| - 1]);
    }
  }

  /**
   * Summed over the distinct dates, the per-date counts add up to the
   * number of dated achievements: each dated achievement is counted once,
   * and the missing date '' contributes nothing.
   */
  lemma CountsAddUp(all: seq<Achievement>)
    ensures SumOverKeys(Distinct(MapSeq(all, DateOf)), all, DateOf, DatedWeight) == Count(all, IsDated)
  {
    GroupedSumIsTotal(all, DateOf, DatedWeight);
    DatedWeightCounts(all);
  }

  // ---------------------------------------------------------------------
  // filteredAchievements (lines 45-50).
  // ---------------------------------------------------------------------

  function InCategory(c: string): Achievement -> bool
  {
    (a: Achievement) => a.category == c
  }

  /**
   * The selected day's achievements shown under the category choice: all of
   * them for 'All', otherwise exactly those of the chosen category, in order.
   */
  function FilteredAchievements(todays: seq<Achievement>, selected: string): (r: seq<Achievement>)
    ensures selected == AllCategories ==> r == todays
    ensures selected != AllCategories ==>
      (forall i :: 0 <= i < |r| ==> r[i] in todays && r[i].category == selected)
      && (forall i :: 0 <= i < |todays| && todays[i].category == selected ==> todays[i] in r)
      && |r| == Count(todays, InCategory(selected))
  {
    CountIsFilterLength(todays, InCategory(selected));
    if selected == AllCategories then todays else Filter(todays, InCategory(selected))
  }

  /** Choosing the same category again shows the same list. */
  lemma FilterTwiceSame(todays: seq<Achievement>, selected: string)
    ensures FilteredAchievements(FilteredAchievements(todays, selected), selected)
         == FilteredAchievements(todays, selected)
  {
    if selected != AllCategories {
      FilterAllKept(Filter(todays, InCategory(selected)), InCategory(selected));
    }
  }

  // ---------------------------------------------------------------------
  // handleAddCategory (lines 112-125).
  // ---------------------------------------------------------------------

  /**
   * The category list after adding `name`: the trimmed name is appended
   * when it is not blank and not yet listed; the existing entries stay, in
   * order, and no duplicate is ever introduced.
   */
  function AddedCategory(cats: seq<string>, name: string): (r: seq<string>)
    ensures IsBlank(name) ==> r == cats
    ensures !IsBlank(name) ==> Trim(name) in r && Trim(name) != ""
    ensures |cats| <= |r| <= |cats| + 1 && r[..|cats|] == cats
    ensures forall i :: 0 <= i < |r| ==> r[i] in cats || r[i] == Trim(name)
    ensures NoDuplicates(cats) ==> NoDuplicates(r)
  {
    TrimEmptyIffBlank(name);
    var t := Trim(name);
    if t == "" || t in cats then cats else cats + [t]
  }

  /** Adding the same name twice leaves the list as adding it once. */
  lemma AddCategoryIdempotent(cats: seq<string>, name: string)
    ensures AddedCategory(AddedCategory(cats, name), name) == AddedCategory(cats, name)
  {
    TrimEmptyIffBlank(name);
  }

  // ---------------------------------------------------------------------
  // handleAddAchievement (lines 64-81).
  // ---------------------------------------------------------------------

  /**
   * The body a submitted form sends: none for a blank title; otherwise the
   * trimmed title, category and description, earned on the selected day.
   */
  function AchievementPayload(f: Form, dayKey: string): (r: Option<Payload>)
    ensures r.None? <==> IsBlank(f.title)
    ensures r.Some? ==> r.value.title == Trim(f.title) && r.value.title != ""
    ensures r.Some? ==> r.value.category == Trim(f.category) && r.value.description == Trim(f.description)
    ensures r.Some? ==> r.value.dateEarned == dayKey
  {
    TrimEmptyIffBlank(f.title);
    if Trim(f.title) == "" then None
    else Some(Payload(Trim(f.title), Trim(f.category), Trim(f.description), dayKey))
  }

  // ---------------------------------------------------------------------
  // Planned items (lines 127-167).
  // ---------------------------------------------------------------------

  /** `plannedItems.find(p => p.id === id)`, as the index of the first match. */
  function FindItem(items: seq<PlannedItem>, id: int): (r: Option<nat>)
    ensures r.Some? ==> r.value < |items| && items[r.value].id == id
    ensures r.Some? ==> forall j :: 0 <= j < r.value ==> items[j].id != id
    ensures r.None? <==> forall j :: 0 <= j < |items| ==> items[j].id != id
  {
    FindFirst(items, (p: PlannedItem) => p.id == id)
  }

  /** `todays.find(a => a.title === text)`: the first achievement with that title. */
  function FindByTitle(todays: seq<Achievement>, text: string): (r: Option<Achievement>)
    ensures r.Some? ==> r.value in todays && r.value.title == text
    ensures r.None? <==> forall j :: 0 <= j < |todays| ==> todays[j].title != text
  {
    if todays == [] then None
    else if todays[0].title == text then Some(todays[0])
    else
      var rest := FindByTitle(todays[1..], text);
      assert rest.Some? ==> rest.value in todays;
      rest
  }

  function SetCompletedOf(id: int, v: bool): PlannedItem -> PlannedItem
  {
    (p: PlannedItem) => if p.id == id then p.(completed := v) else p
  }

  /**
   * `prev.map(p => p.id === id ? { ...p, completed: v } : p)`: every item
   * with that id gets the flag, and ids and texts are kept.
   */
  function SetCompleted(items: seq<PlannedItem>, id: int, v: bool): (r: seq<PlannedItem>)
    ensures |r| == |items|
    ensures forall i :: 0 <= i < |r| ==> r[i].id == items[i].id && r[i].text == items[i].text
    ensures forall i :: 0 <= i < |r| ==> r[i].completed == (if items[i].id == id then v else items[i].completed)
  {
    MapSeq(items, SetCompletedOf(id, v))
  }

  /** Ticking and then unticking the items of an id, all unticked before, restores the list. */
  lemma TickUntickRestores(items: seq<PlannedItem>, id: int)
    requires forall i :: 0 <= i < |items| && items[i].id == id ==> !items[i].completed
    ensures SetCompleted(SetCompleted(items, id, true), id, false) == items
  {
    var r := SetCompleted(SetCompleted(items, id, true), id, false);
    assert forall i :: 0 <= i < |items| ==> r[i] == items[i];
  }

  /** The achievement a ticked planned item creates. */
  function PlannedPayload(item: PlannedItem, formCategory: string, dayKey: string): (r: Payload)
    ensures r.title == item.text && r.description == "" && r.dateEarned == dayKey
    ensures r.category == if formCategory == "" then DefaultCategory else formCategory
    ensures r.category != ""
  {
    Payload(item.text, if formCategory != "" then formCategory else DefaultCategory, "", dayKey)
  }

  /**
   * The page state: the add form, the category-name input, the category
   * list, the planned items and their input, and the key of the selected day.
   */
  class AchievementsPage {
    var form: Form
    var newCategoryName: string
    var categories: seq<string>
    var planned: seq<PlannedItem>
    var newPlannedItem: string
    var selectedKey: string

    constructor(cats: seq<string>, today: Civil)
      ensures form == EmptyForm && newCategoryName == "" && categories == cats
      ensures planned == [] && newPlannedItem == "" && selectedKey == DateKey(today)
    {
      form, newCategoryName, categories := EmptyForm, "", cats;
      planned, newPlannedItem, selectedKey := [], "", DateKey(today);
    }

    /** Picking a calendar day: `selectedIsoDate` becomes its key. */
    method SelectDate(day: Civil)
      modifies this
      ensures selectedKey == DateKey(day)
      ensures form == old(form) && categories == old(categories) && planned == old(planned)
      ensures newCategoryName == old(newCategoryName) && newPlannedItem == old(newPlannedItem)
    {
      selectedKey := DateKey(day);
    }

    /** handleAddCategory: the list grows by the trimmed name and the input clears, unless blank. */
    method AddCategory()
      modifies this
      ensures categories == AddedCategory(old(categories), old(newCategoryName))
      ensures newCategoryName == if IsBlank(old(newCategoryName)) then old(newCategoryName) else ""
      ensures form == old(form) && planned == old(planned) && newPlannedItem == old(newPlannedItem)
      ensures selectedKey == old(selectedKey)
    {
      TrimEmptyIffBlank(newCategoryName);
      var trimmed := Trim(newCategoryName);
      if trimmed == "" {
        return;
      }
      categories := AddedCategory(categories, newCategoryName);
      newCategoryName := "";
    }

    /**
     * handleAddAchievement: nothing is sent for a blank title; otherwise the
     * payload is sent and the form clears exactly when the creation
     * succeeds (`reply` is the created achievement, None on failure).
     */
    method AddAchievement(reply: Option<Achievement>) returns (sent: Option<Payload>)
      modifies this
      ensures sent == AchievementPayload(old(form), old(selectedKey))
      ensures form == if sent.Some? && reply.Some? then EmptyForm else old(form)
      ensures categories == old(categories) && planned == old(planned)
      ensures newCategoryName == old(newCategoryName) && newPlannedItem == old(newPlannedItem)
      ensures selectedKey == old(selectedKey)
    {
      var blank := IsBlank(form.title);
      sent := AchievementPayload(form, selectedKey);
      if !blank && reply.Some? {
        form := EmptyForm;
      }
    }

    /**
     * handleAddPlannedItem: a non-blank input appends one uncompleted item
     * with the trimmed text and the id `nowMs`, and clears the input.
     */
    method AddPlannedItem(nowMs: int)
      modifies this
      ensures IsBlank(old(newPlannedItem)) ==> planned == old(planned) && newPlannedItem == old(newPlannedItem)
      ensures !IsBlank(old(newPlannedItem)) ==>
        planned == old(planned) + [PlannedItem(nowMs, Trim(old(newPlannedItem)), false)] && newPlannedItem == ""
      ensures form == old(form) && categories == old(categories) && newCategoryName == old(newCategoryName)
      ensures selectedKey == old(selectedKey)
    {
      TrimEmptyIffBlank(newPlannedItem);
      var trimmed := Trim(newPlannedItem);
      if trimmed == "" {
        return;
      }
      planned := planned + [PlannedItem(nowMs, trimmed, false)];
      newPlannedItem := "";
    }

    /**
     * handleTogglePlannedItem. An unknown id does nothing. An unticked item
     * sends the creation of an achievement titled with its text and becomes
     * ticked only when `created`. A ticked item looks for an achievement of
     * the selected day with its title: when one is found it is deleted and
     * the item becomes unticked, otherwise nothing happens.
     */
    method TogglePlannedItem(itemId: int, todays: seq<Achievement>, created: bool) returns (action: ToggleAction)
      modifies this
      ensures FindItem(old(planned), itemId).None? ==> action == NoAction && planned == old(planned)
      ensures FindItem(old(planned), itemId).Some? ==>
        var item := old(planned)[FindItem(old(planned), itemId).value];
        if !item.completed then
          action == CreateAchievement(PlannedPayload(item, old(form).category, old(selectedKey)))
          && planned == (if created then SetCompleted(old(planned), itemId, true) else old(planned))
        else if FindByTitle(todays, item.text).Some? then
          action == DeleteAchievement(FindByTitle(todays, item.text).value.id)
          && planned == SetCompleted(old(planned), itemId, false)
        else
          action == NoAction && planned == old(planned)
      ensures form == old(form) && categories == old(categories) && newCategoryName == old(newCategoryName)
      ensures newPlannedItem == old(newPlannedItem) && selectedKey == old(selectedKey)
    {
      var found := FindItem(planned, itemId);
      if found.None? {
        return NoAction;
      }
      var item := planned[found.value];
      if !item.completed {
        action := CreateAchievement(PlannedPayload(item, form.category, selectedKey));
        if created {
          planned := SetCompleted(planned, itemId, true);
        }
      } else {
        var achievement := FindByTitle(todays, item.text);
        if achievement.Some? {
          action := DeleteAchievement(achievement.value.id);
          planned := SetCompleted(planned, itemId, false);
        } else {
          action := NoAction;
        }
      }
    }
  }
}
