/** The checklist tree (checklist -> categories -> items) as the store holds
    it, and the deep copy the checklists page performs when cloning a
    checklist, stated as functions over `Tables.Db`. The copy is specified
    call by call, exactly as the page issues its inserts, and the lemmas
    say what that sequence of calls achieves. */
module ChecklistTree {
  import opened Types
  import opened Ids
  import opened Seqs
  import opened Tables

  function InChecklist(checklistId: Id): ChecklistCategory -> bool {
    (c: ChecklistCategory) => c.checklistId == checklistId
  }

  function InCategory(categoryId: Id): ChecklistItem -> bool {
    (i: ChecklistItem) => i.categoryId == categoryId
  }

  function HasChecklistId(id: Id): Checklist -> bool {
    (c: Checklist) => c.id == id
  }

  /** Categories whose `checklist_id` equals `checklistId`, in table order. */
  function CategoriesOf(cats: seq<ChecklistCategory>, checklistId: Id): (r: seq<ChecklistCategory>)
    ensures forall c :: c in r <==> c in cats && c.checklistId == checklistId
  {
    Filter(cats, InChecklist(checklistId))
  }

  /** Items whose `category_id` equals `categoryId`, in table order. */
  function ItemsOf(items: seq<ChecklistItem>, categoryId: Id): (r: seq<ChecklistItem>)
    ensures forall i :: i in r <==> i in items && i.categoryId == categoryId
  {
    Filter(items, InCategory(categoryId))
  }

  /** Row ids are distinct (the primary key). */
  predicate UniqueChecklistIds(t: seq<Checklist>) {
    forall i, j :: 0 <= i < j < |t| ==> t[i].id != t[j].id
  }

  /** A `.eq('id', id).single()` read: the row when exactly one row matches. */
  function FindChecklist(t: seq<Checklist>, id: Id): (r: Option<Checklist>)
    ensures r.Some? ==> r.value in t && r.value.id == id
    ensures r.Some? ==> forall c :: c in t && c.id == id ==> c == r.value
    ensures (forall c :: c in t ==> c.id != id) ==> r.None?
  {
    var m := Filter(t, HasChecklistId(id));
    if |m| == 1 then
      assert m[0] in m;
      assert forall c :: c in m ==> c == m[0];
      Some(m[0])
    else
      assert (forall c :: c in t ==> c.id != id) ==> m == [] by {
        if forall c :: c in t ==> c.id != id {
          FilterNone(t, HasChecklistId(id));
        }
      }
      None
  }

  /** With distinct ids, the read finds any row that is there. */
  lemma FindChecklistFinds(t: seq<Checklist>, k: nat)
    requires UniqueChecklistIds(t) && k < |t|
    ensures FindChecklist(t, t[k].id) == Some(t[k])
  {
    var p := HasChecklistId(t[k].id);
    assert t == t[..k] + [t[k]] + t[k + 1..];
    FilterNone(t[..k], p);
    FilterNone(t[k + 1..], p);
    FilterAppend(t[..k] + [t[k]], t[k + 1..], p);
    FilterAppend(t[..k], [t[k]], p);
    assert Filter([t[k]], p) == [t[k]];
  }

  // ------------------------------------------------------------------ shapes

  /** An item with its identity and parent removed: what a copy must preserve. */
  datatype ItemShape = ItemShape(name: string, description: Option<string>, position: int, isActive: bool)

  /** A category with its items, ids removed. */
  datatype CategoryShape = CategoryShape(name: string, position: int, items: seq<ItemShape>)

  function ItemShapes(items: seq<ChecklistItem>): (r: seq<ItemShape>)
    ensures |r| == |items|
  {
    seq(|items|, k requires 0 <= k < |items| =>
      ItemShape(items[k].name, items[k].description, items[k].position, items[k].isActive))
  }

  /** Each category of `cats` with the items of `items` that belong to it. */
  function CategoryShapes(cats: seq<ChecklistCategory>, items: seq<ChecklistItem>): (r: seq<CategoryShape>)
    ensures |r| == |cats|
  {
    seq(|cats|, k requires 0 <= k < |cats| =>
      CategoryShape(cats[k].name, cats[k].position, ItemShapes(ItemsOf(items, cats[k].id))))
  }

  /** The tree below checklist `checklistId`, ids removed. */
  function Shape(db: Db, checklistId: Id): seq<CategoryShape> {
    CategoryShapes(CategoriesOf(db.categories, checklistId), db.items)
  }

  /** Number of items in a tree. */
  function TotalItems(shape: seq<CategoryShape>): nat
    decreases |shape|
  {
    if shape == [] then 0 else TotalItems(shape[..|shape| - 1]) + |shape[|shape| - 1].items|
  }

  // ----------------------------------------------------------------- cloning

  /** The insert payload copying `items` under category `categoryId`:
      name, description, position and activity are copied verbatim. */
  function CopyDrafts(items: seq<ChecklistItem>, categoryId: Id): (r: seq<ItemDraft>)
    ensures |r| == |items|
    ensures forall k :: 0 <= k < |r| ==> r[k].categoryId == categoryId
    ensures forall d :: d in r ==> d.categoryId == categoryId
  {
    seq(|items|, k requires 0 <= k < |items| =>
      ItemDraft(categoryId, items[k].name, items[k].description, items[k].position, items[k].isActive))
  }

  /** One iteration of the clone loop: insert a copy of `cat` under the new
      checklist `nc`; only if that insert returns a row, read the items of
      `cat` and insert copies of them, in one call, under the new category. */
  function CopyCategory(db: Db, nc: Id, cat: ChecklistCategory): Db {
    var (db1, newCat) := InsertCategory(db, nc, cat.name, cat.position);
    if newCat.None? then db1
    else InsertItems(db1, CopyDrafts(ItemsOf(db1.items, cat.id), newCat.value)).0
  }

  /** The clone loop over `cats`, in order. */
  function CopyCategories(db: Db, nc: Id, cats: seq<ChecklistCategory>): Db
    decreases |cats|
  {
    if cats == [] then db
    else CopyCategory(CopyCategories(db, nc, cats[..|cats| - 1]), nc, cats[|cats| - 1])
  }

  /** One more iteration of the clone loop. */
  lemma CopyCategoriesSnoc(db: Db, nc: Id, cats: seq<ChecklistCategory>, j: nat)
    requires j < |cats|
    ensures CopyCategories(db, nc, cats[..j + 1]) == CopyCategory(CopyCategories(db, nc, cats[..j]), nc, cats[j])
  {
    assert cats[..j + 1][..j] == cats[..j];
  }

  /** The whole clone: read the source checklist; if found, insert
      "<name> (Copy)" with the same description; if that insert returns a
      row, copy the source's categories (read once, in table order). */
  function Clone(db: Db, id: Id, now: Timestamp): Db {
    match FindChecklist(db.checklists, id)
    case None => db
    case Some(src) =>
      var (db1, nc) := InsertChecklist(db, src.name + " (Copy)", src.description, now);
      if nc.None? then db1
      else CopyCategories(db1, nc.value, CategoriesOf(db1.categories, id))
  }

  // ------------------------------------------------------ helper facts

  /** Appending items that belong to categories issued from `n` on leaves the
      items of an older category as they were. */
  lemma ItemsOfUnaffected(items: seq<ChecklistItem>, tail: seq<ChecklistItem>, categoryId: Id, n: nat)
    requires forall k :: 0 <= k < |tail| ==> !IssuedBelow(n, tail[k].categoryId)
    requires IssuedBelow(n, categoryId)
    ensures ItemsOf(items + tail, categoryId) == ItemsOf(items, categoryId)
  {
    FilterAppend(items, tail, InCategory(categoryId));
    FilterNone(tail, InCategory(categoryId));
  }

  lemma ShapesUnaffected(cats: seq<ChecklistCategory>, items: seq<ChecklistItem>, tail: seq<ChecklistItem>, n: nat)
    requires forall k :: 0 <= k < |tail| ==> !IssuedBelow(n, tail[k].categoryId)
    requires forall c :: c in cats ==> IssuedBelow(n, c.id)
    ensures CategoryShapes(cats, items + tail) == CategoryShapes(cats, items)
  {
    forall k | 0 <= k < |cats|
      ensures CategoryShapes(cats, items + tail)[k] == CategoryShapes(cats, items)[k]
    {
      assert cats[k] in cats;
      ItemsOfUnaffected(items, tail, cats[k].id, n);
    }
  }

  lemma CategoryShapesAppend(cats: seq<ChecklistCategory>, c: ChecklistCategory, items: seq<ChecklistItem>)
    ensures CategoryShapes(cats + [c], items) ==
            CategoryShapes(cats, items) + [CategoryShape(c.name, c.position, ItemShapes(ItemsOf(items, c.id)))]
  {
  }

  lemma TotalItemsAppend(shape: seq<CategoryShape>, s: CategoryShape)
    ensures TotalItems(shape + [s]) == TotalItems(shape) + |s.items|
  {
    assert (shape + [s])[..|shape|] == shape;
  }

  lemma CopyDraftsShape(items: seq<ChecklistItem>, categoryId: Id, n: nat)
    ensures ItemShapes(Stamp(CopyDrafts(items, categoryId), n)) == ItemShapes(items)
  {
  }

  // ------------------------------------------- what the clone loop achieves

  /** A healthy backend accepts the next insert call. */
  lemma HealthyAccepts(db: Db)
    requires Healthy(db)
    ensures Accepts(db)
  {
    if db.inserts in db.rejects {
      assert false;
    }
  }

  /** The two calls one iteration makes when both are accepted. */
  lemma CopyCategoryCalls(db: Db, nc: Id, c: ChecklistCategory) returns (newc: ChecklistCategory, added: seq<ChecklistItem>)
    requires Fresh(db) && Healthy(db) && nc in ChecklistIds(db.checklists)
    ensures newc == ChecklistCategory(Gen(db.nextId), nc, c.name, c.position)
    ensures added == Stamp(CopyDrafts(ItemsOf(db.items, c.id), newc.id), db.nextId + 1)
    ensures CopyCategory(db, nc, c) ==
            db.(categories := db.categories + [newc], items := db.items + added,
                nextId := db.nextId + 1 + |added|, inserts := db.inserts + 2)
    ensures Fresh(CopyCategory(db, nc, c)) && Healthy(CopyCategory(db, nc, c))
  {
    HealthyAccepts(db);
    newc := ChecklistCategory(Gen(db.nextId), nc, c.name, c.position);
    var db1 := db.(categories := db.categories + [newc], nextId := db.nextId + 1, inserts := db.inserts + 1);
    assert InsertCategory(db, nc, c.name, c.position) == (db1, Some(newc.id));
    HealthyAccepts(db1);
    var drafts := CopyDrafts(ItemsOf(db1.items, c.id), newc.id);
    assert newc in db1.categories;
    assert forall d :: d in drafts ==> d.categoryId in CategoryIds(db1.categories);
    added := Stamp(drafts, db1.nextId);
    assert InsertItems(db1, drafts).1;
  }

  /** Appending a category under `nc` with fresh id, and items only under
      it, adds that category with exactly those items to the tree under `nc`
      and leaves the earlier categories' items alone. */
  lemma ShapeAfterCopy(cats: seq<ChecklistCategory>, items: seq<ChecklistItem>, nc: Id,
                       newc: ChecklistCategory, added: seq<ChecklistItem>, n: nat)
    requires forall e :: e in cats ==> IssuedBelow(n, e.id)
    requires forall i :: i in items ==> IssuedBelow(n, i.categoryId)
    requires newc.id == Gen(n) && newc.checklistId == nc
    requires forall k :: 0 <= k < |added| ==> added[k].categoryId == newc.id
    ensures CategoryShapes(CategoriesOf(cats + [newc], nc), items + added) ==
            CategoryShapes(CategoriesOf(cats, nc), items) + [CategoryShape(newc.name, newc.position, ItemShapes(added))]
  {
    GenFresh(n);
    FilterAppend(cats, [newc], InChecklist(nc));
    assert Filter([newc], InChecklist(nc)) == [newc];
    var before := CategoriesOf(cats, nc);
    assert forall k :: 0 <= k < |added| ==> !IssuedBelow(n, added[k].categoryId);
    ShapesUnaffected(before, items, added, n);
    assert forall k :: 0 <= k < |items| ==> items[k].categoryId != newc.id by {
      forall k | 0 <= k < |items| ensures items[k].categoryId != newc.id {
        assert items[k] in items;
      }
    }
    FilterNone(items, InCategory(newc.id));
    FilterAll(added, InCategory(newc.id));
    FilterAppend(items, added, InCategory(newc.id));
    assert ItemsOf(items + added, newc.id) == added;
    CategoryShapesAppend(before, newc, items + added);
    assert CategoriesOf(cats + [newc], nc) == before + [newc];
  }

  /** What the clone loop needs at its start: a consistent store that accepts
      every insert, a new checklist `nc` without categories, and source
      categories that existed before the loop. */
  ghost predicate CopyPre(start: Db, nc: Id, cats: seq<ChecklistCategory>) {
    && Fresh(start) && Healthy(start)
    && nc in ChecklistIds(start.checklists)
    && CategoriesOf(start.categories, nc) == []
    && (forall c :: c in cats ==> IssuedBelow(start.nextId, c.id))
  }

  /** Since `start`, only categories under `nc` and items under categories
      issued from `start.nextId` on were appended, and nothing else changed. */
  ghost predicate AppendedOnly(start: Db, nc: Id, db: Db) {
    && Fresh(db) && Healthy(db)
    && db.nextId >= start.nextId && db.inserts >= start.inserts
    && start.categories <= db.categories && start.items <= db.items
    && (forall k :: |start.categories| <= k < |db.categories| ==> db.categories[k].checklistId == nc)
    && (forall k :: |start.items| <= k < |db.items| ==> !IssuedBelow(start.nextId, db.items[k].categoryId))
    && db.(categories := start.categories, items := start.items, nextId := start.nextId,
           inserts := start.inserts) == start
  }

  /** After copying `done`: the tree below `nc` has the shape of `done` with
      their items as they were in `start`, and one category per element of
      `done` and one item per source item were appended. */
  ghost predicate Copied(start: Db, nc: Id, done: seq<ChecklistCategory>, db: Db) {
    && Shape(db, nc) == CategoryShapes(done, start.items)
    && |db.categories| == |start.categories| + |done|
    && |db.items| == |start.items| + TotalItems(CategoryShapes(done, start.items))
  }

  lemma PrefixSplit<T>(a: seq<T>, b: seq<T>)
    requires a <= b
    ensures a + b[|a|..] == b
  {
  }

  /** The items of a source category are still those it had at `start`. */
  lemma SourceItemsKept(start: Db, nc: Id, db: Db, c: ChecklistCategory)
    requires AppendedOnly(start, nc, db)
    requires IssuedBelow(start.nextId, c.id)
    ensures ItemsOf(db.items, c.id) == ItemsOf(start.items, c.id)
  {
    PrefixSplit(start.items, db.items);
    ItemsOfUnaffected(start.items, db.items[|start.items|..], c.id, start.nextId);
  }

  lemma AppendedOnlyExtend(start: Db, nc: Id, db: Db, newc: ChecklistCategory, added: seq<ChecklistItem>, r: Db)
    requires AppendedOnly(start, nc, db)
    requires newc.checklistId == nc
    requires forall k :: 0 <= k < |added| ==> !IssuedBelow(start.nextId, added[k].categoryId)
    requires r == db.(categories := db.categories + [newc], items := db.items + added,
                      nextId := db.nextId + 1 + |added|, inserts := db.inserts + 2)
    requires Fresh(r) && Healthy(r)
    ensures AppendedOnly(start, nc, r)
  {
    forall k | |start.items| <= k < |r.items|
      ensures !IssuedBelow(start.nextId, r.items[k].categoryId)
    {
      if k >= |db.items| {
        assert r.items[k] == added[k - |db.items|];
      }
    }
  }

  lemma AppendedOnlyStep(start: Db, nc: Id, c: ChecklistCategory, db: Db)
    requires AppendedOnly(start, nc, db)
    requires nc in ChecklistIds(start.checklists)
    ensures AppendedOnly(start, nc, CopyCategory(db, nc, c))
  {
    assert nc in ChecklistIds(db.checklists);
    var newc, added := CopyCategoryCalls(db, nc, c);
    GenParses(db.nextId);
    assert forall k :: 0 <= k < |added| ==> !IssuedBelow(start.nextId, added[k].categoryId);
    AppendedOnlyExtend(start, nc, db, newc, added, CopyCategory(db, nc, c));
  }

  lemma CopiedStep(start: Db, nc: Id, done: seq<ChecklistCategory>, c: ChecklistCategory, db: Db)
    requires nc in ChecklistIds(start.checklists)
    requires IssuedBelow(start.nextId, c.id)
    requires AppendedOnly(start, nc, db)
    requires Copied(start, nc, done, db)
    ensures Copied(start, nc, done + [c], CopyCategory(db, nc, c))
  {
    assert nc in ChecklistIds(db.checklists);
    var newc, added := CopyCategoryCalls(db, nc, c);
    var r := CopyCategory(db, nc, c);
    var srcItems := ItemsOf(start.items, c.id);
    assert ItemShapes(added) == ItemShapes(srcItems) by {
      SourceItemsKept(start, nc, db, c);
      CopyDraftsShape(srcItems, newc.id, db.nextId + 1);
    }
    CategoryShapesAppend(done, c, start.items);
    assert Shape(r, nc) == CategoryShapes(done + [c], start.items) by {
      ShapeAfterCopy(db.categories, db.items, nc, newc, added, db.nextId);
    }
    TotalItemsAppend(CategoryShapes(done, start.items), CategoryShape(c.name, c.position, ItemShapes(srcItems)));
  }

  /** The clone loop, when every insert succeeds, reproduces the source tree
      under the new checklist, appends exactly one category per source
      category and one item per source item, and changes nothing else. */
  lemma {:induction false} CopyCategoriesCopies(start: Db, nc: Id, cats: seq<ChecklistCategory>)
    requires CopyPre(start, nc, cats)
    ensures AppendedOnly(start, nc, CopyCategories(start, nc, cats))
    ensures Copied(start, nc, cats, CopyCategories(start, nc, cats))
    decreases |cats|
  {
    if cats == [] {
      assert Shape(start, nc) == [];
    } else {
      var done := cats[..|cats| - 1];
      var c := cats[|cats| - 1];
      assert done + [c] == cats;
      assert c in cats;
      assert forall x :: x in done ==> x in cats;
      CopyCategoriesCopies(start, nc, done);
      var db := CopyCategories(start, nc, done);
      AppendedOnlyStep(start, nc, c, db);
      CopiedStep(start, nc, done, c, db);
    }
  }

  /** The first two calls of a clone when the source is found and the
      checklist insert is accepted. */
  lemma CloneCalls(db: Db, id: Id, now: Timestamp) returns (db1: Db)
    requires Fresh(db) && Healthy(db)
    requires FindChecklist(db.checklists, id).Some?
    ensures var src := FindChecklist(db.checklists, id).value;
            db1 == db.(checklists := db.checklists + [Checklist(Gen(db.nextId), src.name + " (Copy)", src.description, now, now)],
                       nextId := db.nextId + 1, inserts := db.inserts + 1)
    ensures Fresh(db1) && Healthy(db1)
    ensures Gen(db.nextId) in ChecklistIds(db1.checklists)
    ensures Clone(db, id, now) == CopyCategories(db1, Gen(db.nextId), CategoriesOf(db.categories, id))
  {
    var src := FindChecklist(db.checklists, id).value;
    HealthyAccepts(db);
    var r := InsertChecklist(db, src.name + " (Copy)", src.description, now);
    db1 := r.0;
    assert db1.checklists[|db.checklists|].id == Gen(db.nextId);
  }

  /** The clone's preconditions for the copy loop hold right after the new
      checklist is inserted. */
  lemma CloneCopyPre(db: Db, id: Id, db1: Db, nc: Id)
    requires Fresh(db) && Fresh(db1) && Healthy(db1)
    requires nc == Gen(db.nextId) && nc in ChecklistIds(db1.checklists)
    requires db1.categories == db.categories && db1.nextId == db.nextId + 1
    ensures CopyPre(db1, nc, CategoriesOf(db.categories, id))
  {
    GenFresh(db.nextId);
    assert forall k :: 0 <= k < |db.categories| ==> db.categories[k].checklistId != nc by {
      forall k | 0 <= k < |db.categories| ensures db.categories[k].checklistId != nc {
        assert db.categories[k] in db.categories;
      }
    }
    FilterNone(db.categories, InChecklist(nc));
  }

  /** The copy loop leaves the tree of any checklist issued before `start`
      as it was. */
  lemma OtherTreeKept(start: Db, nc: Id, r: Db, id: Id)
    requires AppendedOnly(start, nc, r)
    requires id != nc
    requires Fresh(start)
    ensures Shape(r, id) == Shape(start, id)
  {
    var tailCats := r.categories[|start.categories|..];
    PrefixSplit(start.categories, r.categories);
    FilterAppend(start.categories, tailCats, InChecklist(id));
    FilterNone(tailCats, InChecklist(id));
    var cats := CategoriesOf(start.categories, id);
    assert CategoriesOf(r.categories, id) == cats;
    PrefixSplit(start.items, r.items);
    ShapesUnaffected(cats, start.items, r.items[|start.items|..], start.nextId);
  }

  /** Cloning an existing checklist in a store that accepts every insert
      creates one checklist "<name> (Copy)" with the source's description
      under the next generated id, gives it a tree of the same shape as the
      source's (same categories, names, positions, items, in order), leaves
      the source tree as it was, and adds exactly as many categories and
      items as the source has. */
  lemma {:induction false} CloneCopiesTree(db: Db, id: Id, now: Timestamp)
    requires Fresh(db) && Healthy(db)
    requires FindChecklist(db.checklists, id).Some?
    ensures var r := Clone(db, id, now);
            var src := FindChecklist(db.checklists, id).value;
            var nc := Gen(db.nextId);
            && Fresh(r) && Healthy(r)
            && nc !in ChecklistIds(db.checklists)
            && r.checklists == db.checklists + [Checklist(nc, src.name + " (Copy)", src.description, now, now)]
            && Shape(r, nc) == Shape(db, id)
            && Shape(r, id) == Shape(db, id)
            && |r.categories| == |db.categories| + |Shape(db, id)|
            && |r.items| == |db.items| + TotalItems(Shape(db, id))
            && r.(checklists := db.checklists, categories := db.categories, items := db.items,
                  nextId := db.nextId, inserts := db.inserts) == db
  {
    var src := FindChecklist(db.checklists, id).value;
    var nc := Gen(db.nextId);
    GenFresh(db.nextId);
    GenParses(db.nextId);
    var db1 := CloneCalls(db, id, now);
    var cats := CategoriesOf(db.categories, id);
    CloneCopyPre(db, id, db1, nc);
    CopyCategoriesCopies(db1, nc, cats);
    var r := CopyCategories(db1, nc, cats);
    assert src in db.checklists;
    OtherTreeKept(db1, nc, r, id);
  }

  // ------------------------------------------ behaviour under failed inserts

  /** Whatever the backend refuses, the clone loop only appends: existing
      categories and items stay in place, every appended category lies under
      `nc` and copies the name and position of a source category, and no
      other table changes. */
  lemma {:induction false} CopyCategoriesOnlyAppends(db: Db, nc: Id, cats: seq<ChecklistCategory>)
    ensures var r := CopyCategories(db, nc, cats);
            && db.categories <= r.categories && db.items <= r.items
            && |r.categories| <= |db.categories| + |cats|
            && (forall k :: |db.categories| <= k < |r.categories| ==>
                  r.categories[k].checklistId == nc
                  && exists c :: c in cats && c.name == r.categories[k].name && c.position == r.categories[k].position)
            && r.(categories := db.categories, items := db.items, nextId := db.nextId, inserts := db.inserts) == db
    decreases |cats|
  {
    if cats != [] {
      var done := cats[..|cats| - 1];
      var c := cats[|cats| - 1];
      CopyCategoriesOnlyAppends(db, nc, done);
      var m := CopyCategories(db, nc, done);
      var r := CopyCategory(m, nc, c);
      CopyCategoryAppends(m, nc, c);
      forall k | |db.categories| <= k < |r.categories|
        ensures r.categories[k].checklistId == nc
        ensures exists x :: x in cats && x.name == r.categories[k].name && x.position == r.categories[k].position
      {
        if k < |m.categories| {
          assert r.categories[k] == m.categories[k];
          var x :| x in done && x.name == m.categories[k].name && x.position == m.categories[k].position;
          assert x in cats;
        } else {
          assert c in cats;
        }
      }
    }
  }

  /** One iteration, accepted or refused, appends at most one category (a
      copy of `cat` under `nc`), only appends items and changes nothing else. */
  lemma CopyCategoryAppends(m: Db, nc: Id, cat: ChecklistCategory)
    ensures var r := CopyCategory(m, nc, cat);
            && m.categories <= r.categories && m.items <= r.items
            && |r.categories| <= |m.categories| + 1
            && (forall k :: |m.categories| <= k < |r.categories| ==>
                  r.categories[k].checklistId == nc && r.categories[k].name == cat.name
                  && r.categories[k].position == cat.position)
            && r.(categories := m.categories, items := m.items, nextId := m.nextId, inserts := m.inserts) == m
  {
  }

  lemma CopyCategorySkipsRefused(db: Db, nc: Id, cats: seq<ChecklistCategory>, j: nat)
    requires j < |cats|
    requires !Accepts(CopyCategories(db, nc, cats[..j]))
    ensures CopyCategories(db, nc, cats[..j + 1]) == Refused(CopyCategories(db, nc, cats[..j]))
  {
    assert cats[..j + 1][..j] == cats[..j];
  }

  /** Cloning only appends, whatever the backend refuses: at most one
      checklist, the existing rows stay in place, and a source that is not
      found leaves the store untouched. */
  lemma {:induction false} CloneOnlyAppends(db: Db, id: Id, now: Timestamp)
    ensures var r := Clone(db, id, now);
            && db.checklists <= r.checklists && |r.checklists| <= |db.checklists| + 1
            && db.categories <= r.categories && db.items <= r.items
            && r.(checklists := db.checklists, categories := db.categories, items := db.items,
                  nextId := db.nextId, inserts := db.inserts) == db
            && (FindChecklist(db.checklists, id).None? ==> r == db)
  {
    match FindChecklist(db.checklists, id)
    case None =>
    case Some(src) =>
      var (db1, nc) := InsertChecklist(db, src.name + " (Copy)", src.description, now);
      if nc.Some? {
        CopyCategoriesOnlyAppends(db1, nc.value, CategoriesOf(db1.categories, id));
      }
  }
}
