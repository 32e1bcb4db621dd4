// The custom-category to-do lists of src/features/tasks/Todo.jsx: the
// mappers between the server's task and category rows and the client's
// items, the PATCH body `updateItem` builds, the grouping `loadData` does,
// the filtered and sorted list each category shows, its counters, and the
// validation in front of every request. The server is a pair of row tables;
// a request's round trip is a function from the tables before to the tables
// after. Time stamps come in through `stamp`, the value `new Date(s)` gives.

module Todo {
  import opened Common

  /** A task row as the server sends it; `description` may be null. */
  datatype TaskRow = TaskRow(id: nat, category: nat, title: string, description: Option<string>,
                             completed: bool, createdAt: string)

  datatype CategoryRow = CategoryRow(id: nat, name: string, color: string)

  /** A to-do item as the component keeps it: ids are strings. */
  datatype Item = Item(id: string, categoryId: string, text: string, note: string,
                       completed: bool, createdAt: string)

  datatype Category = Category(id: string, name: string, icon: string, color: string, createdAt: string)

  const DefaultIcon := "\U{1F4CB}"
  const DefaultColor := "#3b82f6"

  /** `x || ''` for a string that may be null. */
  function OrEmpty(x: Option<string>): string
  {
    if x.Some? then x.value else ""
  }

  /** `n.toString()` of a row id; `parseInt` reads it back. */
  lemma IdRoundTrip(n: nat)
    ensures ParseInt(NatToStr(n), true) == Some(n)
  {
    ParseIntOfNonNegative(n, true);
  }

  // ---------------------------------------------------------------------
  // The mappers of `categoriesApi` and `categoryItemsApi`.
  // ---------------------------------------------------------------------

  /** getTaskCategories: string id, the default icon, a blank colour defaulted. */
  function ToCategory(c: CategoryRow, now: string): (r: Category)
    ensures r.name == c.name && r.icon == DefaultIcon && r.createdAt == now
    ensures r.color != ""
    ensures c.color != "" ==> r.color == c.color
  {
    Category(NatToStr(c.id), c.name, DefaultIcon, if c.color != "" then c.color else DefaultColor, now)
  }

  /** getAllItems' mapper: ids stringified, title as text, a null description as ''. */
  function ToItem(t: TaskRow): (r: Item)
    ensures r.text == t.title && r.completed == t.completed && r.createdAt == t.createdAt
    ensures t.description.None? ==> r.note == ""
    ensures t.description.Some? ==> r.note == t.description.value
  {
    Item(NatToStr(t.id), NatToStr(t.category), t.title, OrEmpty(t.description), t.completed, t.createdAt)
  }

  /** The client's string ids read back as the row's numbers. */
  lemma MappedIdsRoundTrip(t: TaskRow, c: CategoryRow, now: string)
    ensures ParseInt(ToItem(t).id, true) == Some(t.id)
    ensures ParseInt(ToItem(t).categoryId, true) == Some(t.category)
    ensures ParseInt(ToCategory(c, now).id, true) == Some(c.id)
  {
    IdRoundTrip(t.id);
    IdRoundTrip(t.category);
    IdRoundTrip(c.id);
  }

  /** Two rows with different ids map to items with different ids. */
  lemma ToItemKeepsIdsApart(a: TaskRow, b: TaskRow)
    requires a.id != b.id
    ensures ToItem(a).id != ToItem(b).id
  {
    IdRoundTrip(a.id);
    IdRoundTrip(b.id);
  }

  function RowInCategory(k: string): TaskRow -> bool
  {
    (t: TaskRow) => NatToStr(t.category) == k
  }

  function InCategory(k: string): Item -> bool
  {
    (it: Item) => it.categoryId == k
  }

  function AllItems(rows: seq<TaskRow>): (r: seq<Item>)
    ensures |r| == |rows| && forall i :: 0 <= i < |rows| ==> r[i] == ToItem(rows[i])
  {
    MapSeq(rows, ToItem)
  }

  /**
   * getTaskCategoryItems: the mapped rows whose category prints as k, which
   * is the bucket of k in the full item list.
   */
  function GetTaskCategoryItems(rows: seq<TaskRow>, k: string): (r: seq<Item>)
    ensures r == Filter(AllItems(rows), InCategory(k))
    ensures forall i :: 0 <= i < |r| ==> r[i].categoryId == k && r[i] in AllItems(rows)
    ensures forall j :: 0 <= j < |rows| && NatToStr(rows[j].category) == k ==> ToItem(rows[j]) in r
    ensures |r| == Count(rows, RowInCategory(k))
  {
    FilterMapCommute(rows, RowInCategory(k), ToItem, InCategory(k));
    CountIsFilterLength(rows, RowInCategory(k));
    assert forall j :: 0 <= j < |rows| ==> AllItems(rows)[j] == ToItem(rows[j]);
    MapSeq(Filter(rows, RowInCategory(k)), ToItem)
  }

  // ---------------------------------------------------------------------
  // Grouping in loadData.
  // ---------------------------------------------------------------------

  /** The buckets of `groupedItems`: a key per category present, each in list order. */
  ghost predicate IsGrouping(all: seq<Item>, g: map<string, seq<Item>>)
  {
    GroupKeys(all, g) && GroupBuckets(all, g)
  }

  ghost predicate GroupKeys(all: seq<Item>, g: map<string, seq<Item>>)
  {
    forall k :: k in g <==> exists i :: 0 <= i < |all| && all[i].categoryId == k
  }

  ghost predicate GroupBuckets(all: seq<Item>, g: map<string, seq<Item>>)
  {
    forall k :: k in g ==> g[k] == Filter(all, InCategory(k))
  }

  /** The forEach of loadData that pushes each item onto its category's array. */
  method GroupItems(all: seq<Item>) returns (g: map<string, seq<Item>>)
    ensures IsGrouping(all, g)
  {
    g := map[];
    var i := 0;
    while i < |all|
      invariant 0 <= i <= |all|
      invariant IsGrouping(all[..i], g)
    {
      var k := all[i].categoryId;
      var bucket := if k in g then g[k] else [];
      GroupStep(all, i, g, bucket);
      g := g[k := bucket + [all[i]]];
      i := i + 1;
    }
    PrefixAll(all);
  }

  /** One pass of the forEach keeps the buckets a grouping of the items seen. */
  lemma GroupStep(all: seq<Item>, i: nat, g: map<string, seq<Item>>, bucket: seq<Item>)
    requires i < |all| && IsGrouping(all[..i], g)
    requires bucket == if all[i].categoryId in g then g[all[i].categoryId] else []
    ensures IsGrouping(all[..i + 1], g[all[i].categoryId := bucket + [all[i]]])
  {
    KeysStep(all[..i], all[i], g, bucket + [all[i]]);
    BucketsStep(all[..i], all[i], g, bucket);
    PrefixSnoc(all, i);
  }

  /** Adding the key of one more item keeps the keys those of the categories present. */
  lemma KeysStep(done: seq<Item>, item: Item, g: map<string, seq<Item>>, b: seq<Item>)
    requires GroupKeys(done, g)
    ensures GroupKeys(done + [item], g[item.categoryId := b])
  {
    var all := done + [item];
    var g' := g[item.categoryId := b];
    forall k ensures k in g' <==> exists j :: 0 <= j < |all| && all[j].categoryId == k {
      if k == item.categoryId {
        assert all[|done|].categoryId == k;
      }
      if k in g {
        var j :| 0 <= j < |done| && done[j].categoryId == k;
        assert all[j] == done[j];
      }
      if exists j :: 0 <= j < |all| && all[j].categoryId == k {
        var j :| 0 <= j < |all| && all[j].categoryId == k;
        if j < |done| {
          assert done[j] == all[j];
        }
      }
    }
  }

  /** Pushing one more item onto its bucket keeps every bucket the filter of the list so far. */
  lemma BucketsStep(done: seq<Item>, item: Item, g: map<string, seq<Item>>, bucket: seq<Item>)
    requires GroupKeys(done, g) && GroupBuckets(done, g)
    requires bucket == if item.categoryId in g then g[item.categoryId] else []
    ensures GroupBuckets(done + [item], g[item.categoryId := bucket + [item]])
  {
    var g' := g[item.categoryId := bucket + [item]];
    forall k | k in g' ensures g'[k] == Filter(done + [item], InCategory(k)) {
      if k == item.categoryId {
        if k !in g {
          NoneInBucket(done, k);
        }
        BucketOfKey(done, item, bucket, k);
      } else {
        BucketOfKey(done, item, g[k], k);
      }
    }
  }

  /** One bucket after the push: it grows by the item exactly when that is its category. */
  lemma BucketOfKey(done: seq<Item>, item: Item, bucket: seq<Item>, k: string)
    requires bucket == Filter(done, InCategory(k))
    ensures Filter(done + [item], InCategory(k)) == bucket + (if item.categoryId == k then [item] else [])
  {
    FilterAppend(done, [item], InCategory(k));
  }

  lemma NoneInBucket(s: seq<Item>, k: string)
    requires forall j :: 0 <= j < |s| ==> s[j].categoryId != k
    ensures Filter(s, InCategory(k)) == []
  {
  }

  function CategoryOf(it: Item): string { it.categoryId }

  function One(it: Item): int { 1 }

  /** Sum of the bucket sizes over the keys ks. */
  function BucketSizes(ks: seq<string>, g: map<string, seq<Item>>): int
    requires forall i :: 0 <= i < |ks| ==> ks[i] in g
  {
    if ks == [] then 0 else BucketSizes(ks[..|ks| - 1], g) + |g[ks[|ks| - 1]]|
  }

  lemma {:induction false} BucketIsSumWhere(s: seq<Item>, k: string)
    ensures |Filter(s, InCategory(k))| == SumWhere(s, CategoryOf, k, One)
  {
    if s != [] { BucketIsSumWhere(s[..|s| - 1], k); }
  }

  lemma {:induction false} SumOfOnes(s: seq<Item>)
    ensures Sum(s, One) == |s|
  {
    if s != [] { SumOfOnes(s[..|s| - 1]); }
  }

  lemma {:induction false} BucketSizesAreKeyedSums(ks: seq<string>, all: seq<Item>, g: map<string, seq<Item>>)
    requires IsGrouping(all, g)
    requires forall i :: 0 <= i < |ks| ==> ks[i] in g
    ensures BucketSizes(ks, g) == SumOverKeys(ks, all, CategoryOf, One)
  {
    if ks != [] {
      BucketSizesAreKeyedSums(ks[..|ks| - 1], all, g);
      BucketIsSumWhere(all, ks[|ks| - 1]);
    }
  }

  /**
   * Every item lands in exactly one bucket: the keys are the categories
   * present, and the bucket sizes add up to the number of items.
   */
  lemma GroupingCoversAll(all: seq<Item>, g: map<string, seq<Item>>)
    requires IsGrouping(all, g)
    ensures var ks := Distinct(MapSeq(all, CategoryOf));
      (forall k :: k in g <==> k in ks) && BucketSizes(ks, g) == |all|
  {
    var cats := MapSeq(all, CategoryOf);
    var ks := Distinct(cats);
    KeysAreCategories(all, g, cats);
    forall k ensures k in g <==> k in ks {
      if k in g {
        assert k in cats;
      }
    }
    BucketSizesAreKeyedSums(ks, all, g);
    GroupedSumIsTotal(all, CategoryOf, One);
    SumOfOnes(all);
  }

  /** The keys of a grouping are the categories of the items. */
  lemma KeysAreCategories(all: seq<Item>, g: map<string, seq<Item>>, cats: seq<string>)
    requires GroupKeys(all, g)
    requires |cats| == |all| && forall i :: 0 <= i < |all| ==> cats[i] == all[i].categoryId
    ensures forall k :: k in g <==> k in cats
  {
    forall k ensures k in g <==> k in cats {
      if k in g {
        var i :| 0 <= i < |all| && all[i].categoryId == k;
        assert cats[i] == k;
      }
      if k in cats {
        var i :| 0 <= i < |cats| && cats[i] == k;
        assert all[i].categoryId == k;
      }
    }
  }

  // ---------------------------------------------------------------------
  // What one category shows.
  // ---------------------------------------------------------------------

  function ItemKeptBy(f: CompletionFilter): Item -> bool
  {
    (it: Item) => Kept(f, it.completed)
  }

  /** Incomplete first, then the newest. */
  function ItemKey(stamp: string -> int): Item -> Key
  {
    (it: Item) => Key(if it.completed then 1 else 0, -stamp(it.createdAt))
  }

  /**
   * getFilteredItems: no bucket shows nothing; otherwise the items the filter
   * keeps, incomplete ones first and, within each group, newest first.
   */
  function FilteredItems(bucket: Option<seq<Item>>, f: CompletionFilter, stamp: string -> int): (r: seq<Item>)
    ensures bucket.None? ==> r == []
    ensures bucket.Some? ==> multiset(r) == multiset(Filter(bucket.value, ItemKeptBy(f)))
    ensures bucket.Some? ==> forall i :: 0 <= i < |r| ==> r[i] in bucket.value && Kept(f, r[i].completed)
    ensures bucket.Some? ==> forall i :: 0 <= i < |bucket.value| && Kept(f, bucket.value[i].completed) ==>
      bucket.value[i] in r
    ensures forall i, j :: 0 <= i < j < |r| ==>
      (!r[i].completed || r[j].completed)
      && (r[i].completed == r[j].completed ==> stamp(r[i].createdAt) >= stamp(r[j].createdAt))
  {
    if bucket.None? then []
    else
      var kept := Filter(bucket.value, ItemKeptBy(f));
      var r := Arrange(kept, stamp);
      SameMembers(r, kept);
      r
  }

  /** The sort of getFilteredItems: a reordering, incomplete first, then newest first. */
  function Arrange(items: seq<Item>, stamp: string -> int): (r: seq<Item>)
    ensures multiset(r) == multiset(items)
    ensures forall i, j :: 0 <= i < j < |r| ==>
      (!r[i].completed || r[j].completed)
      && (r[i].completed == r[j].completed ==> stamp(r[i].createdAt) >= stamp(r[j].createdAt))
  {
    SortByKeySorted(items, ItemKey(stamp));
    SortByKey(items, ItemKey(stamp))
  }

  /** With 'all' the list is a reordering of the whole bucket. */
  lemma ShowAllIsReordering(bucket: seq<Item>, stamp: string -> int)
    ensures multiset(FilteredItems(Some(bucket), ShowAll, stamp)) == multiset(bucket)
  {
    FilterAllKept(bucket, ItemKeptBy(ShowAll));
  }

  /** The active and the completed views together show every item once. */
  lemma ActiveAndCompletedPartition(bucket: seq<Item>, stamp: string -> int)
    ensures |FilteredItems(Some(bucket), ShowActive, stamp)| + |FilteredItems(Some(bucket), ShowCompleted, stamp)|
      == |bucket|
  {
    CountIsFilterLength(bucket, ItemKeptBy(ShowActive));
    CountIsFilterLength(bucket, ItemKeptBy(ShowCompleted));
    CountComplement(bucket, ItemKeptBy(ShowCompleted), ItemKeptBy(ShowActive));
    assert |FilteredItems(Some(bucket), ShowActive, stamp)| == |Filter(bucket, ItemKeptBy(ShowActive))| by {
      assert |multiset(FilteredItems(Some(bucket), ShowActive, stamp))|
        == |multiset(Filter(bucket, ItemKeptBy(ShowActive)))|;
    }
    assert |FilteredItems(Some(bucket), ShowCompleted, stamp)| == |Filter(bucket, ItemKeptBy(ShowCompleted))| by {
      assert |multiset(FilteredItems(Some(bucket), ShowCompleted, stamp))|
        == |multiset(Filter(bucket, ItemKeptBy(ShowCompleted)))|;
    }
  }

  datatype CategoryStats = CategoryStats(total: nat, completed: nat, active: nat)

  function IsDone(it: Item): bool { it.completed }

  function IsOpen(it: Item): bool { !it.completed }

  /** getTaskCategoryStats over the category's bucket, or none. */
  function StatsOf(g: map<string, seq<Item>>, k: string): (r: CategoryStats)
    ensures r.total == r.completed + r.active
    ensures k !in g ==> r == CategoryStats(0, 0, 0)
    ensures k in g ==> r.total == |g[k]| && r.completed == Count(g[k], IsDone)
  {
    var bucket := if k in g then g[k] else [];
    CountComplement(bucket, IsDone, IsOpen);
    CategoryStats(|bucket|, Count(bucket, IsDone), Count(bucket, IsOpen))
  }

  // ---------------------------------------------------------------------
  // Requests: createItem, updateItem and the forms in front of them.
  // ---------------------------------------------------------------------

  /** `parseInt` of an id as the JSON body carries it: NaN becomes null. */
  function IdJson(s: string): Json
  {
    match ParseInt(s, true)
    case Some(n) => JNum(n)
    case None => JNull
  }

  /** The body of createItem. */
  datatype CreateBody = CreateBody(category: Json, title: string, description: string, completed: bool)

  /**
   * addItem then createItem: nothing for a missing or blank text; otherwise
   * the text, the category's note or '', and an incomplete item.
   */
  function AddItemBody(texts: map<string, string>, notes: map<string, string>, k: string): (r: Option<CreateBody>)
    ensures r.None? <==> k !in texts || IsBlank(texts[k])
    ensures r.Some? ==> r.value.title == texts[k] && !r.value.completed && r.value.category == IdJson(k)
    ensures r.Some? ==> r.value.description == (if k in notes then notes[k] else "")
  {
    if k !in texts || IsBlank(texts[k]) then None
    else Some(CreateBody(IdJson(k), texts[k], if k in notes then notes[k] else "", false))
  }

  /** A category id the client got from the server goes back as that number. */
  lemma AddItemSendsCategoryId(texts: map<string, string>, notes: map<string, string>, n: nat)
    requires NatToStr(n) in texts && !IsBlank(texts[NatToStr(n)])
    ensures AddItemBody(texts, notes, NatToStr(n)).Some?
    ensures AddItemBody(texts, notes, NatToStr(n)).value.category == JNum(n)
  {
    IdRoundTrip(n);
  }

  /** The fields passed to updateItem; `None` is undefined. */
  datatype ItemUpdate = ItemUpdate(text: Option<string>, note: Option<string>,
                                   completed: Option<bool>, categoryId: Option<string>)

  /** The fields of a task patch; WireName gives each one's JSON name. */
  datatype Field = TitleField | DescriptionField | CompletedField | CategoryField

  function WireName(f: Field): (r: string)
    ensures f == TitleField ==> r == "title"
    ensures f == CategoryField ==> r == "category"
  {
    match f
    case TitleField => "title"
    case DescriptionField => "description"
    case CompletedField => "completed"
    case CategoryField => "category"
  }

  /** updateItem's `updateData`: exactly the defined fields, under the server's names. */
  predicate IsPatchOf(u: ItemUpdate, patch: map<Field, Json>)
  {
    (TitleField in patch <==> u.text.Some?)
    && (DescriptionField in patch <==> u.note.Some?)
    && (CompletedField in patch <==> u.completed.Some?)
    && (CategoryField in patch <==> u.categoryId.Some?)
    && (u.text.Some? ==> patch[TitleField] == JStr(u.text.value))
    && (u.note.Some? ==> patch[DescriptionField] == JStr(u.note.value))
    && (u.completed.Some? ==> patch[CompletedField] == JBool(u.completed.value))
    && (u.categoryId.Some? ==> patch[CategoryField] == IdJson(u.categoryId.value))
  }

  /** The four conditional assignments of updateItem. */
  method BuildPatch(u: ItemUpdate) returns (patch: map<Field, Json>)
    ensures IsPatchOf(u, patch)
  {
    patch := map[];
    if u.text.Some? {
      patch := patch[TitleField := JStr(u.text.value)];
    }
    if u.note.Some? {
      patch := patch[DescriptionField := JStr(u.note.value)];
    }
    if u.completed.Some? {
      patch := patch[CompletedField := JBool(u.completed.value)];
    }
    if u.categoryId.Some? {
      patch := patch[CategoryField := IdJson(u.categoryId.value)];
    }
  }

  /** The fields a patch sets, read back under the client's names. */
  function UpdateOfPatch(patch: map<Field, Json>): ItemUpdate
  {
    ItemUpdate(
      if TitleField in patch && patch[TitleField].JStr? then Some(patch[TitleField].s) else None,
      if DescriptionField in patch && patch[DescriptionField].JStr? then Some(patch[DescriptionField].s) else None,
      if CompletedField in patch && patch[CompletedField].JBool? then Some(patch[CompletedField].b) else None,
      if CategoryField in patch && patch[CategoryField].JNum? && patch[CategoryField].n >= 0
      then Some(NatToStr(patch[CategoryField].n)) else None)
  }

  /** Renaming is lossless: an update with a server-issued category id comes back whole. */
  lemma PatchRoundTrip(u: ItemUpdate, patch: map<Field, Json>, n: nat)
    requires IsPatchOf(u, patch)
    requires u.categoryId.None? || u.categoryId == Some(NatToStr(n))
    ensures UpdateOfPatch(patch) == u
  {
    IdRoundTrip(n);
  }

  /** `{...item}` as updateItem reads it: every field defined. */
  function FullUpdate(it: Item): ItemUpdate
  {
    ItemUpdate(Some(it.text), Some(it.note), Some(it.completed), Some(it.categoryId))
  }

  /** `items[k]?.find(i => i.id === id)`. */
  function FindItem(g: map<string, seq<Item>>, k: string, id: string): (r: Option<Item>)
    ensures r.Some? ==> k in g && r.value in g[k] && r.value.id == id
    ensures r.None? ==> k !in g || forall i :: 0 <= i < |g[k]| ==> g[k][i].id != id
  {
    if k !in g then None else FindById(g[k], id)
  }

  function FindById(s: seq<Item>, id: string): (r: Option<Item>)
    ensures r.Some? ==> r.value in s && r.value.id == id
    ensures r.None? ==> forall i :: 0 <= i < |s| ==> s[i].id != id
  {
    if s == [] then None
    else if s[0].id == id then Some(s[0])
    else FindById(s[1..], id)
  }

  /** toggleItemComplete: the found item with `completed` flipped, or nothing. */
  function ToggleUpdate(g: map<string, seq<Item>>, k: string, id: string): (r: Option<ItemUpdate>)
    ensures r.None? <==> FindItem(g, k, id).None?
    ensures r.Some? ==> var it := FindItem(g, k, id).value;
      r.value == FullUpdate(it.(completed := !it.completed))
  {
    var found := FindItem(g, k, id);
    if found.None? then None else Some(FullUpdate(found.value.(completed := !found.value.completed)))
  }

  /**
   * Toggling an item loaded from row t sends back t's title, its note, the
   * flipped flag and t's own category number.
   */
  lemma TogglePatchOfLoadedRow(t: TaskRow, patch: map<Field, Json>)
    requires IsPatchOf(FullUpdate(ToItem(t).(completed := !t.completed)), patch)
    ensures patch == map[TitleField := JStr(t.title), DescriptionField := JStr(OrEmpty(t.description)),
                         CompletedField := JBool(!t.completed), CategoryField := JNum(t.category)]
  {
    var it := ToItem(t).(completed := !t.completed);
    PatchOfFullUpdate(it, patch);
    IdRoundTrip(t.category);
    assert IdJson(it.categoryId) == JNum(t.category);
  }

  /** A full update's patch carries all four fields. */
  lemma PatchOfFullUpdate(it: Item, patch: map<Field, Json>)
    requires IsPatchOf(FullUpdate(it), patch)
    ensures patch == map[TitleField := JStr(it.text), DescriptionField := JStr(it.note),
                         CompletedField := JBool(it.completed), CategoryField := IdJson(it.categoryId)]
  {
    var m := map[TitleField := JStr(it.text), DescriptionField := JStr(it.note),
                 CompletedField := JBool(it.completed), CategoryField := IdJson(it.categoryId)];
    forall f: Field ensures f in patch && f in m && patch[f] == m[f] {
      match f
      case TitleField =>
      case DescriptionField =>
      case CompletedField =>
      case CategoryField =>
    }
    assert patch.Keys == m.Keys;
  }

  /** The item being edited: its category and its id. */
  datatype Editing = Editing(categoryId: string, itemId: string)

  /**
   * saveEdit: nothing for a blank text, when nothing is being edited, or when
   * the item is gone; otherwise the item with the new text and note.
   */
  function SaveEditUpdate(g: map<string, seq<Item>>, editing: Option<Editing>, text: string, note: string)
    : (r: Option<ItemUpdate>)
    ensures IsBlank(text) || editing.None? ==> r.None?
    ensures !IsBlank(text) && editing.Some? ==>
      var found := FindItem(g, editing.value.categoryId, editing.value.itemId);
      (r.None? <==> found.None?)
      && (r.Some? ==> r.value == FullUpdate(found.value.(text := text, note := note)))
  {
    if IsBlank(text) || editing.None? then None
    else
      var found := FindItem(g, editing.value.categoryId, editing.value.itemId);
      if found.None? then None else Some(FullUpdate(found.value.(text := text, note := note)))
  }

  /** An edit keeps the item's flag and category and only changes its words. */
  lemma EditKeepsFlagAndCategory(g: map<string, seq<Item>>, e: Editing, text: string, note: string)
    requires !IsBlank(text)
    requires FindItem(g, e.categoryId, e.itemId).Some?
    ensures var u := SaveEditUpdate(g, Some(e), text, note).value;
      var it := FindItem(g, e.categoryId, e.itemId).value;
      u.completed == Some(it.completed) && u.categoryId == Some(it.categoryId) && u.text == Some(text)
  {
  }

  /** createTaskCategory: nothing for a blank name; else the name and colour. */
  function NewCategoryBody(name: string, color: string): (r: Option<(string, string)>)
    ensures r.None? <==> IsBlank(name)
    ensures r.Some? ==> r.value.0 == name && r.value.1 != ""
    ensures r.Some? && color != "" ==> r.value.1 == color
  {
    if IsBlank(name) then None else Some((name, if color != "" then color else DefaultColor))
  }

  // ---------------------------------------------------------------------
  // Deleting a category.
  // ---------------------------------------------------------------------

  /** The server's task-category and task tables. */
  datatype Tables = Tables(categories: seq<CategoryRow>, tasks: seq<TaskRow>)

  /**
   * deleteCategory as written: the first awaited call is
   * `categoriesApi.deleteCategory`, which that object does not define, so the
   * call throws before any request, the catch logs it, and nothing changes.
   */
  function DeleteCategoryAsWritten(s: Tables, k: string, confirmed: bool): (r: Tables)
    ensures r == s
  {
    s
  }

  /** A confirmed delete of a category that has items leaves its items listed. */
  lemma DeleteAsWrittenKeepsItems(s: Tables, t: TaskRow)
    requires t in s.tasks
    ensures GetTaskCategoryItems(DeleteCategoryAsWritten(s, NatToStr(t.category), true).tasks,
                                 NatToStr(t.category)) != []
  {
    var j :| 0 <= j < |s.tasks| && s.tasks[j] == t;
    assert ToItem(s.tasks[j]) in GetTaskCategoryItems(s.tasks, NatToStr(t.category));
  }

  function CategoryIdIsNot(n: int): CategoryRow -> bool
  {
    (c: CategoryRow) => c.id != n
  }

  function TaskCategoryIsNot(n: int): TaskRow -> bool
  {
    (t: TaskRow) => t.category != n
  }

  function RowNotInCategory(k: string): TaskRow -> bool
  {
    (t: TaskRow) => NatToStr(t.category) != k
  }

  /**
   * deleteCategory through `categoriesApi.deleteTaskCategory`: unless the
   * user declines, the row with id `parseInt(k)` goes (its tasks with it, the
   * foreign key cascading), then deleteItemsByCategory removes any task whose
   * category prints as k. An id that does not parse fails the first request.
   */
  function DeleteCategory(s: Tables, k: string, confirmed: bool): (r: Tables)
    ensures !confirmed || ParseInt(k, true).None? ==> r == s
    ensures confirmed && ParseInt(k, true).Some? ==>
      var n := ParseInt(k, true).value;
      (forall c :: c in r.categories <==> c in s.categories && c.id != n)
      && (forall t :: t in r.tasks ==> t in s.tasks && t.category != n && NatToStr(t.category) != k)
      && (forall t :: t in s.tasks && t.category != n && NatToStr(t.category) != k ==> t in r.tasks)
  {
    if !confirmed then s
    else match ParseInt(k, true)
      case None => s
      case Some(n) =>
        var cascaded := Filter(s.tasks, TaskCategoryIsNot(n));
        Tables(Filter(s.categories, CategoryIdIsNot(n)), Filter(cascaded, RowNotInCategory(k)))
  }

  /** After a confirmed delete of a listed category, it and its items are gone. */
  lemma DeleteCategoryRemovesAll(s: Tables, c: CategoryRow)
    ensures var r := DeleteCategory(s, NatToStr(c.id), true);
      (forall d :: d in r.categories ==> d.id != c.id)
      && GetTaskCategoryItems(r.tasks, NatToStr(c.id)) == []
      && (forall d :: d in s.categories && d.id != c.id ==> d in r.categories)
  {
    IdRoundTrip(c.id);
    var r := DeleteCategory(s, NatToStr(c.id), true);
    CountNone(r.tasks, RowInCategory(NatToStr(c.id)));
  }
}
