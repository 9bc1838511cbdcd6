/** The checklists page: the list of checklists, the selected checklist's
    categories and items, the set of expanded categories, and the edits the
    page issues against the record store (add, delete and toggle rows, and
    the deep clone of a checklist). Browser dialogs become parameters:
    `confirmed` for `confirm(...)`, an optional string for `prompt(...)`. */
module ChecklistsPage {
  import opened Types
  import opened Seqs
  import opened Tables
  import opened ChecklistTree
  import opened Store

  /** Sort key of `order('created_at', { ascending: false })`. */
  function NewestFirst(c: Checklist): int {
    -c.createdAt
  }

  /** Sort key of `order('position')` on categories. */
  function CategoryPosition(c: ChecklistCategory): int {
    c.position
  }

  /** Sort key of `order('position')` on items. */
  function ItemPosition(i: ChecklistItem): int {
    i.position
  }

  /** JavaScript truthiness of an optional id: present and non-empty. */
  predicate IsSet(o: Option<Id>) {
    o.Some? && o.value != ""
  }

  /** JavaScript truthiness of the string a `prompt` returns. */
  predicate Entered(name: Option<string>) {
    name.Some? && name.value != ""
  }

  /** The expanded-category set after a click on category `id`. */
  function Toggled(s: set<Id>, id: Id): (r: set<Id>)
    ensures id in r <==> id !in s
    ensures forall x :: x != id ==> (x in r <==> x in s)
  {
    if id in s then s - {id} else s + {id}
  }

  /** Two clicks on the same category restore the expanded set. */
  lemma ToggledTwice(s: set<Id>, id: Id)
    ensures Toggled(Toggled(s, id), id) == s
  {
  }

  /** Clicking the activity toggle of an item twice (the second click on
      the reloaded row) restores the store, provided the row shown was
      current. */
  lemma ToggleItemTwice(db: Db, item: ChecklistItem)
    requires forall k :: 0 <= k < |db.items| && db.items[k].id == item.id ==> db.items[k].isActive == item.isActive
    ensures SetItemActive(SetItemActive(db, item.id, !item.isActive), item.id, !!item.isActive) == db
  {
    var r := SetItemActive(SetItemActive(db, item.id, !item.isActive), item.id, !!item.isActive);
    assert r.items == db.items;
  }

  /** Positions `0 .. |s| - 1`, each used once (distinct values below `|s|`). */
  predicate DensePositions(s: seq<ChecklistItem>) {
    && (forall a :: 0 <= a < |s| ==> 0 <= s[a].position < |s|)
    && (forall a, b :: 0 <= a < b < |s| ==> s[a].position != s[b].position)
  }

  /** The items of a category, as the page counts them from its sorted copy
      of the table, are as many as the table holds. */
  lemma SortedCountMatches(items: seq<ChecklistItem>, categoryId: Id)
    ensures |ItemsOf(SortBy(items, ItemPosition), categoryId)| == |ItemsOf(items, categoryId)|
  {
    FilterCountPermutation(SortBy(items, ItemPosition), items, InCategory(categoryId));
  }

  /** Inserting one item appends exactly that row to its category. */
  lemma InsertOneItem(db: Db, draft: ItemDraft) returns (x: ChecklistItem)
    requires InsertItems(db, [draft]).1
    ensures x.categoryId == draft.categoryId && x.position == draft.position
    ensures ItemsOf(InsertItems(db, [draft]).0.items, draft.categoryId) == ItemsOf(db.items, draft.categoryId) + [x]
  {
    var added := Stamp([draft], db.nextId);
    x := added[0];
    assert added == [x];
    assert InsertItems(db, [draft]).0.items == db.items + added;
    FilterAppend(db.items, added, InCategory(draft.categoryId));
    assert Filter(added, InCategory(draft.categoryId)) == [x];
  }

  /** Adding an item at position "number of items in its category" to a
      category whose positions are 0 .. n - 1 makes them 0 .. n. */
  lemma AddItemKeepsDense(db: Db, draft: ItemDraft)
    requires DensePositions(ItemsOf(db.items, draft.categoryId))
    requires draft.position == |ItemsOf(db.items, draft.categoryId)|
    requires InsertItems(db, [draft]).1
    ensures DensePositions(ItemsOf(InsertItems(db, [draft]).0.items, draft.categoryId))
  {
    var s := ItemsOf(db.items, draft.categoryId);
    var x := InsertOneItem(db, draft);
    var t := s + [x];
    forall a | 0 <= a < |t| ensures 0 <= t[a].position < |t| {
      if a < |s| {
        assert t[a] == s[a];
      }
    }
    forall a, b | 0 <= a < b < |t| ensures t[a].position != t[b].position {
      assert t[a] == s[a];
      if b < |s| {
        assert t[b] == s[b];
      }
    }
  }

  lemma ItemsOfAppendOwn(items: seq<ChecklistItem>, more: seq<ChecklistItem>, cat: Id)
    requires ItemsOf(items, cat) == []
    requires forall k :: 0 <= k < |more| ==> more[k].categoryId == cat
    ensures ItemsOf(items + more, cat) == more
  {
    FilterAppend(items, more, InCategory(cat));
    FilterAll(more, InCategory(cat));
  }

  /** Deleting the first of two items appended to an empty category leaves the second. */
  lemma DeleteFirstOfTwo(db: Db, a: ChecklistItem, b: ChecklistItem)
    requires ItemsOf(db.items, b.categoryId) == []
    requires a.id != b.id
    ensures ItemsOf(DeleteItem(db.(items := db.items + [a, b]), a.id).items, b.categoryId) == [b]
  {
    var cat := b.categoryId;
    var kept := Filter(db.items, ItemKept(a.id));
    FilterAppend(db.items, [a, b], ItemKept(a.id));
    assert Filter([a, b], ItemKept(a.id)) == [b];
    assert forall k :: 0 <= k < |kept| ==> kept[k].categoryId != cat by {
      forall k | 0 <= k < |kept| ensures kept[k].categoryId != cat {
        assert kept[k] in kept;
        assert kept[k] !in ItemsOf(db.items, cat);
      }
    }
    FilterNone(kept, InCategory(cat));
    ItemsOfAppendOwn(kept, [b], cat);
  }

  /** Adding an item at position 1 to a category holding one item at
      position 1 repeats that position. */
  lemma AddAtTakenPosition(db: Db, b: ChecklistItem, draft: ItemDraft)
    requires ItemsOf(db.items, draft.categoryId) == [b]
    requires b.position == 1 && draft.position == 1
    requires InsertItems(db, [draft]).1
    ensures !DensePositions(ItemsOf(InsertItems(db, [draft]).0.items, draft.categoryId))
  {
    var x := InsertOneItem(db, draft);
    var t := [b] + [x];
    assert ItemsOf(InsertItems(db, [draft]).0.items, draft.categoryId) == t;
    assert t[0].position == t[1].position;
  }

  /** Two items appended at positions 0 and 1 to an empty category are dense. */
  lemma AppendTwoDense(items: seq<ChecklistItem>, a: ChecklistItem, b: ChecklistItem)
    requires ItemsOf(items, a.categoryId) == [] && b.categoryId == a.categoryId
    requires a.position == 0 && b.position == 1
    ensures DensePositions(ItemsOf(items + [a, b], a.categoryId))
  {
    ItemsOfAppendOwn(items, [a, b], a.categoryId);
    assert forall k :: 0 <= k < 2 ==> [a, b][k].position == k;
  }

  /** Deleting an item does not change whether a later item insert is accepted. */
  lemma DeleteItemKeepsInsert(db: Db, id: Id, drafts: seq<ItemDraft>)
    ensures InsertItems(DeleteItem(db, id), drafts).1 == InsertItems(db, drafts).1
  {
    var after := DeleteItem(db, id);
    assert Accepts(after) == Accepts(db) && after.categories == db.categories;
  }

  /** Positions are never renumbered: after an item is deleted, the next
      added item can get the position of one that is still there. */
  lemma DeleteThenAddCanRepeatPosition(db: Db, draft: ItemDraft)
    requires ItemsOf(db.items, draft.categoryId) == []
    requires InsertItems(db, [draft]).1 && draft.position == 1
    ensures var a := ChecklistItem("a", draft.categoryId, "first", None, 0, true);
            var b := ChecklistItem("b", draft.categoryId, "second", None, 1, true);
            var before := db.(items := db.items + [a, b]);
            var after := DeleteItem(before, "a");
            && DensePositions(ItemsOf(before.items, draft.categoryId))
            && draft.position == |ItemsOf(after.items, draft.categoryId)|
            && !DensePositions(ItemsOf(InsertItems(after, [draft]).0.items, draft.categoryId))
  {
    var cat := draft.categoryId;
    var a := ChecklistItem("a", cat, "first", None, 0, true);
    var b := ChecklistItem("b", cat, "second", None, 1, true);
    var before := db.(items := db.items + [a, b]);
    AppendTwoDense(db.items, a, b);
    var after := DeleteItem(before, "a");
    DeleteFirstOfTwo(db, a, b);
    DeleteItemKeepsInsert(before, "a", [draft]);
    AddAtTakenPosition(after, b, draft);
  }

  /** The checklist form; the description is written as typed, "" included. */
  datatype ChecklistForm = ChecklistForm(name: string, description: string)

  const BlankChecklistForm := ChecklistForm("", "")

  /** The form as the edit dialog opens it; a missing description shows as "". */
  function EditForm(c: Checklist): (f: ChecklistForm)
    ensures f.description == "" <==> c.description.None? || c.description == Some("")
  {
    ChecklistForm(c.name, NullToEmpty(c.description))
  }

  /** Saving the edit dialog unchanged keeps the checklist except for
      `updated_at` and a missing description, which becomes "". */
  lemma EditUnchangedKeepsChecklist(db: Db, k: nat, now: Timestamp)
    requires k < |db.checklists|
    ensures var c := db.checklists[k]; var f := EditForm(c);
      UpdateChecklist(db, c.id, f.name, Some(f.description), now).checklists[k] ==
        c.(description := Some(NullToEmpty(c.description)), updatedAt := now)
  {
  }

  class ChecklistsPage {
    const store: RecordStore
    var checklists: seq<Checklist>
    var selected: Option<Id>
    var categories: seq<ChecklistCategory>
    var items: seq<ChecklistItem>
    var expanded: set<Id>
    var showModal: bool
    var editing: Option<Checklist>
    var form: ChecklistForm

    ghost predicate Valid()
      reads this, store
    {
      store.Valid()
    }

    /** The page shows the categories of `checklistId` and all items, each
        ordered by position, as the store holds them now. */
    ghost predicate ShowsDetails(checklistId: Id)
      reads this, store
    {
      && categories == SortBy(CategoriesOf(store.db.categories, checklistId), CategoryPosition)
      && items == SortBy(store.db.items, ItemPosition)
    }

    constructor (store: RecordStore)
      ensures this.store == store
      ensures checklists == [] && selected == None && categories == [] && items == [] && expanded == {}
      ensures !showModal && editing.None? && form == BlankChecklistForm
    {
      this.store := store;
      checklists := [];
      selected := None;
      categories := [];
      items := [];
      expanded := {};
      showModal := false;
      editing := None;
      form := BlankChecklistForm;
    }

    /** `loadChecklistDetails`: the categories of one checklist and every
        item, both ordered by position. */
    method LoadDetails(checklistId: Id)
      modifies this`categories, this`items
      ensures ShowsDetails(checklistId)
      ensures SortedBy(categories, CategoryPosition) && SortedBy(items, ItemPosition)
      ensures multiset(categories) == multiset(CategoriesOf(store.db.categories, checklistId))
      ensures multiset(items) == multiset(store.db.items)
    {
      categories := SortBy(CategoriesOf(store.db.categories, checklistId), CategoryPosition);
      items := SortBy(store.db.items, ItemPosition);
      SortByIsSorted(CategoriesOf(store.db.categories, checklistId), CategoryPosition);
      SortByIsSorted(store.db.items, ItemPosition);
    }

    /** Selecting a checklist; a change to a non-empty id loads its details. */
    method Select(id: Id)
      modifies this`selected, this`categories, this`items
      ensures selected == Some(id)
      ensures old(selected) != Some(id) && id != "" ==> ShowsDetails(id)
      ensures old(selected) == Some(id) || id == "" ==> categories == old(categories) && items == old(items)
    {
      var changed := selected != Some(id);
      selected := Some(id);
      if changed && id != "" {
        LoadDetails(id);
      }
    }

    /** Reloads the details after an edit, for the selected checklist. */
    method Reload()
      modifies this`categories, this`items
      ensures selected.Some? ==> ShowsDetails(selected.value)
      ensures selected.None? ==> categories == old(categories) && items == old(items)
    {
      if selected.Some? {
        LoadDetails(selected.value);
      }
    }

    /** `loadChecklists`: newest first; the first one is selected when
        nothing is. */
    method LoadChecklists()
      modifies this`checklists, this`selected, this`categories, this`items
      ensures checklists == SortBy(store.db.checklists, NewestFirst)
      ensures SortedBy(checklists, NewestFirst) && multiset(checklists) == multiset(store.db.checklists)
      ensures !IsSet(old(selected)) && |checklists| > 0 ==> selected == Some(checklists[0].id)
      ensures IsSet(old(selected)) || |checklists| == 0 ==> selected == old(selected)
      ensures selected != old(selected) && IsSet(selected) ==> ShowsDetails(selected.value)
    {
      checklists := SortBy(store.db.checklists, NewestFirst);
      SortByIsSorted(store.db.checklists, NewestFirst);
      if |checklists| > 0 && !IsSet(selected) {
        Select(checklists[0].id);
      }
    }

    method OpenEdit(c: Checklist)
      modifies this`editing, this`form, this`showModal
      ensures editing == Some(c) && form == EditForm(c) && showModal
    {
      editing := Some(c);
      form := EditForm(c);
      showModal := true;
    }

    method OpenCreate()
      modifies this`editing, this`form, this`showModal
      ensures editing.None? && form == BlankChecklistForm && showModal
    {
      editing := None;
      form := BlankChecklistForm;
      showModal := true;
    }

    /** Writes the form: an update of the edited checklist, or an insert. */
    method Save(now: Timestamp)
      requires Valid()
      modifies store
      ensures Valid()
      ensures editing.Some? ==>
        store.db == UpdateChecklist(old(store.db), editing.value.id, form.name, Some(form.description), now)
      ensures editing.None? ==>
        store.db == Tables.InsertChecklist(old(store.db), form.name, Some(form.description), now).0
    {
      if editing.Some? {
        store.UpdateChecklist(editing.value.id, form.name, Some(form.description), now);
      } else {
        var _ := store.InsertChecklist(form.name, Some(form.description), now);
      }
    }

    /** `handleChecklistSubmit`: saves the form, closes the dialog, clears
        the form and reloads the list. */
    method SubmitChecklist(now: Timestamp)
      requires Valid()
      modifies store, this`showModal, this`editing, this`form, this`checklists, this`selected, this`categories, this`items
      ensures Valid()
      ensures old(editing).Some? ==>
        store.db == UpdateChecklist(old(store.db), old(editing).value.id, old(form).name, Some(old(form).description), now)
      ensures old(editing).None? ==>
        store.db == Tables.InsertChecklist(old(store.db), old(form).name, Some(old(form).description), now).0
      ensures !showModal && editing.None? && form == BlankChecklistForm
      ensures checklists == SortBy(store.db.checklists, NewestFirst)
    {
      Save(now);
      showModal := false;
      editing := None;
      form := BlankChecklistForm;
      LoadChecklists();
    }

    /** `deleteChecklist`, once confirmed: the selection is cleared and the
        list reloaded. The reload sees the selection as it was when the
        delete began, so it selects the first checklist only when nothing
        was selected then. */
    method DeleteChecklist(id: Id, confirmed: bool)
      requires Valid()
      modifies store, this`checklists, this`selected, this`categories, this`items
      ensures Valid()
      ensures confirmed ==> store.db == Tables.DeleteChecklist(old(store.db), id)
      ensures confirmed ==> checklists == SortBy(store.db.checklists, NewestFirst)
      ensures confirmed ==> forall k :: 0 <= k < |checklists| ==> checklists[k].id != id
      ensures confirmed && IsSet(old(selected)) ==> selected.None?
      ensures confirmed && !IsSet(old(selected)) && |checklists| > 0 ==>
        selected == Some(checklists[0].id) && (IsSet(selected) ==> ShowsDetails(selected.value))
      ensures !confirmed ==> store.db == old(store.db) && checklists == old(checklists) && selected == old(selected)
    {
      if !confirmed {
        return;
      }
      store.DeleteChecklist(id);
      var wasSet := IsSet(selected);
      selected := None;
      if wasSet {
        checklists := SortBy(store.db.checklists, NewestFirst);
      } else {
        LoadChecklists();
      }
      forall k | 0 <= k < |checklists| ensures checklists[k].id != id {
        assert checklists[k] in multiset(store.db.checklists);
      }
    }

    /** `addCategory`: needs a selected checklist and a non-empty name; the
        new category goes last, at position "number of categories shown". */
    method AddCategory(name: Option<string>)
      requires Valid()
      modifies store, this`categories, this`items
      ensures Valid()
      ensures IsSet(selected) && Entered(name) ==>
                store.db == InsertCategory(old(store.db), selected.value, name.value, |old(categories)|).0
                && ShowsDetails(selected.value)
      ensures !(IsSet(selected) && Entered(name)) ==>
                store.db == old(store.db) && categories == old(categories) && items == old(items)
    {
      if !IsSet(selected) {
        return;
      }
      if !Entered(name) {
        return;
      }
      var _ := store.InsertCategory(selected.value, name.value, |categories|);
      LoadDetails(selected.value);
    }

    /** `addItem`: needs a non-empty name; the new item is active and goes
        at position "number of items of that category shown". */
    method AddItem(categoryId: Id, name: Option<string>)
      requires Valid()
      modifies store, this`categories, this`items
      ensures Valid()
      ensures Entered(name) ==>
                store.db == InsertItems(old(store.db), [ItemDraft(categoryId, name.value, None,
                                        |ItemsOf(old(items), categoryId)|, true)]).0
      ensures Entered(name) && old(items) == SortBy(old(store.db).items, ItemPosition) ==>
                store.db == InsertItems(old(store.db), [ItemDraft(categoryId, name.value, None,
                                        |ItemsOf(old(store.db).items, categoryId)|, true)]).0
      ensures Entered(name) ==> selected.Some? ==> ShowsDetails(selected.value)
      ensures !Entered(name) ==> store.db == old(store.db) && categories == old(categories) && items == old(items)
    {
      if !Entered(name) {
        return;
      }
      SortedCountMatches(store.db.items, categoryId);
      var position := |ItemsOf(items, categoryId)|;
      var _ := store.InsertItems([ItemDraft(categoryId, name.value, None, position, true)]);
      Reload();
    }

    /** `deleteCategory`, once confirmed. */
    method DeleteCategory(id: Id, confirmed: bool)
      requires Valid()
      modifies store, this`categories, this`items
      ensures Valid()
      ensures confirmed ==> store.db == Tables.DeleteCategory(old(store.db), id)
      ensures confirmed && selected.Some? ==> ShowsDetails(selected.value)
      ensures !confirmed ==> store.db == old(store.db) && categories == old(categories) && items == old(items)
    {
      if confirmed {
        store.DeleteCategory(id);
        Reload();
      }
    }

    /** `deleteItem`, once confirmed. */
    method DeleteItem(id: Id, confirmed: bool)
      requires Valid()
      modifies store, this`categories, this`items
      ensures Valid()
      ensures confirmed ==> store.db == Tables.DeleteItem(old(store.db), id)
      ensures confirmed && selected.Some? ==> ShowsDetails(selected.value)
      ensures !confirmed ==> store.db == old(store.db) && categories == old(categories) && items == old(items)
    {
      if confirmed {
        store.DeleteItem(id);
        Reload();
      }
    }

    /** `toggleItemActive`: writes the negation of the activity shown. */
    method ToggleItemActive(item: ChecklistItem)
      requires Valid()
      modifies store, this`categories, this`items
      ensures Valid()
      ensures store.db == SetItemActive(old(store.db), item.id, !item.isActive)
      ensures selected.Some? ==> ShowsDetails(selected.value)
    {
      store.SetItemActive(item.id, !item.isActive);
      Reload();
    }

    /** `toggleCategory`: flips one id in the expanded set. */
    method ToggleCategory(id: Id)
      modifies this`expanded
      ensures expanded == Toggled(old(expanded), id)
    {
      expanded := Toggled(expanded, id);
    }

    /** One step of the copy loop: the category, then its items when the
        category was inserted. */
    method CopyOneCategory(newId: Id, cat: ChecklistCategory)
      requires store.Valid()
      modifies store
      ensures store.Valid()
      ensures store.db == CopyCategory(old(store.db), newId, cat)
    {
      var newCat := store.InsertCategory(newId, cat.name, cat.position);
      if newCat.Some? {
        var itms := ItemsOf(store.db.items, cat.id);
        var _ := store.InsertItems(CopyDrafts(itms, newCat.value));
      }
    }

    /** The copy loop of the clone: each category is inserted under the
        new checklist and, when that insert succeeds, its items follow. */
    method CopyCategoriesInto(newId: Id, cats: seq<ChecklistCategory>)
      requires store.Valid()
      modifies store
      ensures store.Valid()
      ensures store.db == CopyCategories(old(store.db), newId, cats)
    {
      ghost var start := store.db;
      var j := 0;
      assert cats[..0] == [];
      while j < |cats|
        invariant 0 <= j <= |cats|
        invariant store.Valid()
        invariant store.db == CopyCategories(start, newId, cats[..j])
      {
        CopyOneCategory(newId, cats[j]);
        CopyCategoriesSnoc(start, newId, cats, j);
        assert store.db == CopyCategories(start, newId, cats[..j + 1]);
        j := j + 1;
      }
      assert cats[..|cats|] == cats;
    }

    /** `cloneChecklist`: the deep copy, one insert call at a time, then a
        reload of the list when the source was found. */
    method CloneChecklist(id: Id, now: Timestamp)
      requires Valid()
      modifies store, this`checklists, this`selected, this`categories, this`items
      ensures Valid()
      ensures store.db == Clone(old(store.db), id, now)
      ensures FindChecklist(old(store.db).checklists, id).Some? ==> checklists == SortBy(store.db.checklists, NewestFirst)
      ensures FindChecklist(old(store.db).checklists, id).None? ==>
                checklists == old(checklists) && selected == old(selected)
                && categories == old(categories) && items == old(items)
    {
      var found := FindChecklist(store.db.checklists, id);
      if found.None? {
        return;
      }
      var src := found.value;
      var nc := store.InsertChecklist(src.name + " (Copy)", src.description, now);
      if nc.Some? {
        CopyCategoriesInto(nc.value, CategoriesOf(store.db.categories, id));
      }
      LoadChecklists();
    }
  }
}
