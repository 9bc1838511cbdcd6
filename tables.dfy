/** The record store the pages talk to, as a value: one sequence per table
    (rows in insertion order, which is also the order an unordered query
    returns them in), the counter the next generated id is issued from, and
    the store's insert calls. Each insert call is numbered; the calls whose
    numbers are in `rejects` are refused by the backend (a constraint
    violation, a lost connection, ...), which lets the model say what each
    page does when a write fails. Each function below is one write the pages
    issue: `.insert(...)`, `.update(...).eq('id', ...)` or
    `.delete().eq('id', ...)`. */
module Tables {
  import opened Types
  import opened Ids
  import opened Seqs

  datatype Db = Db(
    checklists: seq<Checklist>,
    categories: seq<ChecklistCategory>,
    items: seq<ChecklistItem>,
    companies: seq<Company>,
    teams: seq<Team>,
    users: seq<User>,
    prompts: seq<LlmPrompt>,
    settings: seq<IntegrationSettings>,
    logs: seq<ProcessingLog>,
    nextId: nat,
    inserts: nat,
    rejects: set<nat>)

  /** No row holds an id the store has yet to issue, neither as its own id
      nor as the parent reference of a category or an item. */
  predicate Fresh(db: Db) {
    var n := db.nextId;
    && (forall c :: c in db.checklists ==> IssuedBelow(n, c.id))
    && (forall c :: c in db.categories ==> IssuedBelow(n, c.id) && IssuedBelow(n, c.checklistId))
    && (forall i :: i in db.items ==> IssuedBelow(n, i.id) && IssuedBelow(n, i.categoryId))
    && (forall c :: c in db.companies ==> IssuedBelow(n, c.id))
    && (forall t :: t in db.teams ==> IssuedBelow(n, t.id))
    && (forall p :: p in db.prompts ==> IssuedBelow(n, p.id))
  }

  /** The backend accepts every insert call from now on. */
  predicate Healthy(db: Db) {
    forall k :: k in db.rejects ==> k < db.inserts
  }

  /** The backend accepts the next insert call. */
  predicate Accepts(db: Db) {
    db.inserts !in db.rejects
  }

  /** A refused insert call: only the call counter moves. */
  function Refused(db: Db): Db {
    db.(inserts := db.inserts + 1)
  }

  function ChecklistIds(t: seq<Checklist>): set<Id> {
    set c | c in t :: c.id
  }

  function CategoryIds(t: seq<ChecklistCategory>): set<Id> {
    set c | c in t :: c.id
  }

  function UserIds(t: seq<User>): set<Id> {
    set u | u in t :: u.id
  }

  function CompanyIds(t: seq<Company>): set<Id> {
    set c | c in t :: c.id
  }

  function TeamIds(t: seq<Team>): set<Id> {
    set x | x in t :: x.id
  }

  function PromptIds(t: seq<LlmPrompt>): set<Id> {
    set p | p in t :: p.id
  }

  // Rewriting rows in place keeps every id, so the store stays fresh.

  lemma ChecklistsKeepFresh(db: Db, u: seq<Checklist>)
    requires Fresh(db)
    requires forall x :: x in u ==> exists k :: 0 <= k < |db.checklists| && x.id == db.checklists[k].id
    ensures Fresh(db.(checklists := u))
  {
  }

  lemma CompaniesKeepFresh(db: Db, u: seq<Company>)
    requires Fresh(db)
    requires forall x :: x in u ==> exists k :: 0 <= k < |db.companies| && x.id == db.companies[k].id
    ensures Fresh(db.(companies := u))
  {
  }

  lemma TeamsKeepFresh(db: Db, u: seq<Team>)
    requires Fresh(db)
    requires forall x :: x in u ==> exists k :: 0 <= k < |db.teams| && x.id == db.teams[k].id
    ensures Fresh(db.(teams := u))
  {
  }

  lemma PromptsKeepFresh(db: Db, u: seq<LlmPrompt>)
    requires Fresh(db)
    requires forall x :: x in u ==> exists k :: 0 <= k < |db.prompts| && x.id == db.prompts[k].id
    ensures Fresh(db.(prompts := u))
  {
  }

  // ---------------------------------------------------------------- checklists

  /** `insert` into `checklists`; returns the generated id unless refused. */
  function InsertChecklist(db: Db, name: string, description: Option<string>, now: Timestamp): (r: (Db, Option<Id>))
    ensures r.1.Some? <==> Accepts(db)
    ensures r.1.Some? ==> r.0.checklists == db.checklists + [Checklist(r.1.value, name, description, now, now)]
    ensures r.1.Some? ==> r.0.(checklists := db.checklists, nextId := db.nextId, inserts := db.inserts) == db
    ensures r.1.Some? ==> r.0.nextId == db.nextId + 1 && r.0.inserts == db.inserts + 1
    ensures r.1.None? ==> r.0 == Refused(db)
    ensures Fresh(db) ==> Fresh(r.0)
    ensures Fresh(db) && r.1.Some? ==> r.1.value !in ChecklistIds(db.checklists)
  {
    if !Accepts(db) then (Refused(db), None)
    else
      var id := Gen(db.nextId);
      GenFresh(db.nextId);
      (db.(checklists := db.checklists + [Checklist(id, name, description, now, now)],
           nextId := db.nextId + 1, inserts := db.inserts + 1),
       Some(id))
  }

  /** `update checklists set name, description, updated_at` where id matches. */
  function UpdateChecklist(db: Db, id: Id, name: string, description: Option<string>, now: Timestamp): (r: Db)
    ensures |r.checklists| == |db.checklists|
    ensures forall k :: 0 <= k < |db.checklists| && db.checklists[k].id != id ==> r.checklists[k] == db.checklists[k]
    ensures forall k :: 0 <= k < |db.checklists| && db.checklists[k].id == id ==>
      r.checklists[k] == Checklist(id, name, description, db.checklists[k].createdAt, now)
    ensures r.(checklists := db.checklists) == db
    ensures Fresh(db) ==> Fresh(r)
  {
    var t := db.checklists;
    var u := seq(|t|, k requires 0 <= k < |t| =>
      if t[k].id == id then t[k].(name := name, description := description, updatedAt := now) else t[k]);
    assert forall x :: x in u ==> exists k :: 0 <= k < |t| && x.id == t[k].id by {
      forall x | x in u ensures exists k :: 0 <= k < |t| && x.id == t[k].id {
        var k :| 0 <= k < |u| && u[k] == x;
      }
    }
    assert Fresh(db) ==> Fresh(db.(checklists := u)) by {
      if Fresh(db) {
        ChecklistsKeepFresh(db, u);
      }
    }
    db.(checklists := u)
  }

  function ChecklistKept(id: Id): Checklist -> bool {
    (c: Checklist) => c.id != id
  }

  /** `delete` from `checklists` where id matches. */
  function DeleteChecklist(db: Db, id: Id): (r: Db)
    ensures forall c :: c in r.checklists <==> c in db.checklists && c.id != id
    ensures IsSubsequence(r.checklists, db.checklists)
    ensures r.(checklists := db.checklists) == db
    ensures Fresh(db) ==> Fresh(r)
  {
    FilterIsSubsequence(db.checklists, ChecklistKept(id));
    db.(checklists := Filter(db.checklists, ChecklistKept(id)))
  }

  /** `insert` into `checklist_categories`; refused as well when the parent
      checklist does not exist (the store's referential integrity). */
  function InsertCategory(db: Db, checklistId: Id, name: string, position: int): (r: (Db, Option<Id>))
    ensures r.1.Some? <==> Accepts(db) && checklistId in ChecklistIds(db.checklists)
    ensures r.1.Some? ==> r.0.categories == db.categories + [ChecklistCategory(r.1.value, checklistId, name, position)]
    ensures r.1.Some? ==> r.0.(categories := db.categories, nextId := db.nextId, inserts := db.inserts) == db
    ensures r.1.Some? ==> r.0.nextId == db.nextId + 1 && r.0.inserts == db.inserts + 1
    ensures r.1.None? ==> r.0 == Refused(db)
    ensures Fresh(db) ==> Fresh(r.0)
    ensures Fresh(db) && r.1.Some? ==> r.1.value !in CategoryIds(db.categories)
  {
    if !Accepts(db) || checklistId !in ChecklistIds(db.checklists) then (Refused(db), None)
    else
      var id := Gen(db.nextId);
      GenFresh(db.nextId);
      (db.(categories := db.categories + [ChecklistCategory(id, checklistId, name, position)],
           nextId := db.nextId + 1, inserts := db.inserts + 1),
       Some(id))
  }

  /** The rows a bulk insert of `drafts` creates, with ids issued from `n` on. */
  function Stamp(drafts: seq<ItemDraft>, n: nat): (r: seq<ChecklistItem>)
    ensures |r| == |drafts|
    ensures forall k :: 0 <= k < |r| ==> ParseId(r[k].id) == Some(n + k)
    ensures forall k :: 0 <= k < |r| ==>
      && r[k].categoryId == drafts[k].categoryId && r[k].name == drafts[k].name
      && r[k].description == drafts[k].description && r[k].position == drafts[k].position
      && r[k].isActive == drafts[k].isActive
  {
    var r := seq(|drafts|, k requires 0 <= k < |drafts| =>
      ChecklistItem(Gen(n + k), drafts[k].categoryId, drafts[k].name, drafts[k].description,
                    drafts[k].position, drafts[k].isActive));
    assert forall k :: 0 <= k < |r| ==> ParseId(r[k].id) == Some(n + k) by {
      forall k | 0 <= k < |r| ensures ParseId(r[k].id) == Some(n + k) {
        GenParses(n + k);
      }
    }
    r
  }

  /** One `insert` call into `checklist_items` with an array of rows: all
      rows are created or none is. */
  function InsertItems(db: Db, drafts: seq<ItemDraft>): (r: (Db, bool))
    ensures r.1 <==> Accepts(db) && forall d :: d in drafts ==> d.categoryId in CategoryIds(db.categories)
    ensures r.1 ==> r.0.items == db.items + Stamp(drafts, db.nextId)
    ensures r.1 ==> r.0.(items := db.items, nextId := db.nextId, inserts := db.inserts) == db
    ensures r.1 ==> r.0.nextId == db.nextId + |drafts| && r.0.inserts == db.inserts + 1
    ensures !r.1 ==> r.0 == Refused(db)
    ensures Fresh(db) ==> Fresh(r.0)
  {
    if !Accepts(db) || exists d :: d in drafts && d.categoryId !in CategoryIds(db.categories) then
      (Refused(db), false)
    else
      var r := db.(items := db.items + Stamp(drafts, db.nextId), nextId := db.nextId + |drafts|, inserts := db.inserts + 1);
      assert Fresh(db) ==> Fresh(r) by {
        if Fresh(db) {
          StampKeepsFresh(db, drafts);
        }
      }
      (r, true)
  }

  /** Stamped rows hold ids issued below the advanced counter, and parents
      that already exist, so appending them keeps the store fresh. */
  lemma StampKeepsFresh(db: Db, drafts: seq<ItemDraft>)
    requires Fresh(db)
    requires forall d :: d in drafts ==> d.categoryId in CategoryIds(db.categories)
    ensures Fresh(db.(items := db.items + Stamp(drafts, db.nextId), nextId := db.nextId + |drafts|,
                      inserts := db.inserts + 1))
  {
    var n := db.nextId;
    var m := n + |drafts|;
    var added := Stamp(drafts, n);
    forall i | i in added ensures IssuedBelow(m, i.id) && IssuedBelow(m, i.categoryId) {
      var k :| 0 <= k < |added| && added[k] == i;
      assert i.categoryId == drafts[k].categoryId && drafts[k] in drafts;
    }
  }

  function CategoryKept(id: Id): ChecklistCategory -> bool {
    (c: ChecklistCategory) => c.id != id
  }

  function ItemKept(id: Id): ChecklistItem -> bool {
    (i: ChecklistItem) => i.id != id
  }

  function TeamKept(id: Id): Team -> bool {
    (t: Team) => t.id != id
  }

  /** `delete` from `checklist_categories` where id matches. */
  function DeleteCategory(db: Db, id: Id): (r: Db)
    ensures forall c :: c in r.categories <==> c in db.categories && c.id != id
    ensures IsSubsequence(r.categories, db.categories)
    ensures r.(categories := db.categories) == db
    ensures Fresh(db) ==> Fresh(r)
  {
    FilterIsSubsequence(db.categories, CategoryKept(id));
    db.(categories := Filter(db.categories, CategoryKept(id)))
  }

  /** `delete` from `checklist_items` where id matches. */
  function DeleteItem(db: Db, id: Id): (r: Db)
    ensures forall i :: i in r.items <==> i in db.items && i.id != id
    ensures IsSubsequence(r.items, db.items)
    ensures r.(items := db.items) == db
    ensures Fresh(db) ==> Fresh(r)
  {
    FilterIsSubsequence(db.items, ItemKept(id));
    db.(items := Filter(db.items, ItemKept(id)))
  }

  /** `update checklist_items set is_active` where id matches. */
  function SetItemActive(db: Db, id: Id, active: bool): (r: Db)
    ensures |r.items| == |db.items|
    ensures forall k :: 0 <= k < |db.items| && db.items[k].id == id ==> r.items[k] == db.items[k].(isActive := active)
    ensures forall k :: 0 <= k < |db.items| && db.items[k].id != id ==> r.items[k] == db.items[k]
    ensures r.(items := db.items) == db
    ensures Fresh(db) ==> Fresh(r)
  {
    var t := db.items;
    var u := seq(|t|, k requires 0 <= k < |t| => if t[k].id == id then t[k].(isActive := active) else t[k]);
    assert forall i :: i in u ==> exists k :: 0 <= k < |t| && i.id == t[k].id && i.categoryId == t[k].categoryId by {
      forall i | i in u ensures exists k :: 0 <= k < |t| && i.id == t[k].id && i.categoryId == t[k].categoryId {
        var k :| 0 <= k < |u| && u[k] == i;
      }
    }
    db.(items := u)
  }

  // --------------------------------------------------------------------- users

  /** The columns the user form writes. */
  datatype UserChanges = UserChanges(
    fullName: string,
    email: string,
    role: UserRole,
    companyId: Id,
    teamId: Option<Id>,
    status: UserStatus)

  /** `update users set ...` where id matches. */
  function UpdateUser(db: Db, id: Id, ch: UserChanges, now: Timestamp): (r: Db)
    ensures |r.users| == |db.users|
    ensures forall k :: 0 <= k < |db.users| && db.users[k].id != id ==> r.users[k] == db.users[k]
    ensures forall k :: 0 <= k < |db.users| && db.users[k].id == id ==>
      var u := r.users[k];
      && u.id == id && u.passwordHash == db.users[k].passwordHash && u.createdAt == db.users[k].createdAt
      && u.fullName == ch.fullName && u.email == ch.email && u.role == ch.role
      && u.companyId == ch.companyId && u.teamId == ch.teamId && u.status == ch.status && u.updatedAt == now
    ensures r.(users := db.users) == db
  {
    var t := db.users;
    db.(users := seq(|t|, k requires 0 <= k < |t| =>
      if t[k].id == id then
        t[k].(fullName := ch.fullName, email := ch.email, role := ch.role, companyId := ch.companyId,
              teamId := ch.teamId, status := ch.status, updatedAt := now)
      else t[k]))
  }

  /** `insert` into `users` with an id chosen by the caller; refused as well
      when that id is taken (primary key). */
  function InsertUser(db: Db, u: User): (r: (Db, bool))
    ensures r.1 <==> Accepts(db) && u.id !in UserIds(db.users)
    ensures r.1 ==> r.0.users == db.users + [u]
    ensures !r.1 ==> r.0.users == db.users
    ensures r.0.(users := db.users, inserts := db.inserts) == db
  {
    if !Accepts(db) || u.id in UserIds(db.users) then (Refused(db), false)
    else (db.(users := db.users + [u], inserts := db.inserts + 1), true)
  }

  /** `update users set status, updated_at` where id matches. */
  function SetUserStatus(db: Db, id: Id, status: UserStatus, now: Timestamp): (r: Db)
    ensures |r.users| == |db.users|
    ensures forall k :: 0 <= k < |db.users| ==>
      r.users[k] == if db.users[k].id == id then db.users[k].(status := status, updatedAt := now) else db.users[k]
    ensures r.(users := db.users) == db
  {
    var t := db.users;
    db.(users := seq(|t|, k requires 0 <= k < |t| =>
      if t[k].id == id then t[k].(status := status, updatedAt := now) else t[k]))
  }

  // ----------------------------------------------------------------- companies

  /** The columns the company form writes. */
  datatype CompanyChanges = CompanyChanges(
    name: string,
    description: Option<string>,
    activeChecklistId: Option<Id>,
    status: CompanyStatus)

  /** `update companies set ...` where id matches. */
  function UpdateCompany(db: Db, id: Id, ch: CompanyChanges, now: Timestamp): (r: Db)
    ensures |r.companies| == |db.companies|
    ensures forall k :: 0 <= k < |db.companies| && db.companies[k].id != id ==> r.companies[k] == db.companies[k]
    ensures forall k :: 0 <= k < |db.companies| && db.companies[k].id == id ==>
      r.companies[k] == Company(id, ch.name, ch.description, ch.activeChecklistId, ch.status,
                                db.companies[k].createdAt, now)
    ensures r.(companies := db.companies) == db
    ensures Fresh(db) ==> Fresh(r)
  {
    var t := db.companies;
    var u := seq(|t|, k requires 0 <= k < |t| =>
      if t[k].id == id then
        t[k].(name := ch.name, description := ch.description, activeChecklistId := ch.activeChecklistId,
              status := ch.status, updatedAt := now)
      else t[k]);
    assert forall c :: c in u ==> exists k :: 0 <= k < |t| && c.id == t[k].id by {
      forall c | c in u ensures exists k :: 0 <= k < |t| && c.id == t[k].id {
        var k :| 0 <= k < |u| && u[k] == c;
      }
    }
    assert Fresh(db) ==> Fresh(db.(companies := u)) by {
      if Fresh(db) {
        CompaniesKeepFresh(db, u);
      }
    }
    db.(companies := u)
  }

  /** `insert` into `companies`; returns the generated id unless refused. */
  function InsertCompany(db: Db, ch: CompanyChanges, now: Timestamp): (r: (Db, Option<Id>))
    ensures r.1.Some? <==> Accepts(db)
    ensures Fresh(db) ==> Fresh(r.0)
    ensures r.1.Some? ==>
      r.0.companies == db.companies + [Company(r.1.value, ch.name, ch.description, ch.activeChecklistId, ch.status, now, now)]
    ensures r.1.None? ==> r.0 == Refused(db)
    ensures r.1.Some? ==> r.0.(companies := db.companies, nextId := db.nextId, inserts := db.inserts) == db
    ensures r.1.Some? ==> r.0.nextId == db.nextId + 1 && r.0.inserts == db.inserts + 1
    ensures Fresh(db) && r.1.Some? ==> r.1.value !in CompanyIds(db.companies)
  {
    if !Accepts(db) then (Refused(db), None)
    else
      var id := Gen(db.nextId);
      GenFresh(db.nextId);
      (db.(companies := db.companies + [Company(id, ch.name, ch.description, ch.activeChecklistId, ch.status, now, now)],
           nextId := db.nextId + 1, inserts := db.inserts + 1),
       Some(id))
  }

  /** `update companies set status, updated_at` where id matches. */
  function SetCompanyStatus(db: Db, id: Id, status: CompanyStatus, now: Timestamp): (r: Db)
    ensures |r.companies| == |db.companies|
    ensures forall k :: 0 <= k < |db.companies| ==>
      r.companies[k] == if db.companies[k].id == id then db.companies[k].(status := status, updatedAt := now) else db.companies[k]
    ensures r.(companies := db.companies) == db
    ensures Fresh(db) ==> Fresh(r)
  {
    var t := db.companies;
    var u := seq(|t|, k requires 0 <= k < |t| =>
      if t[k].id == id then t[k].(status := status, updatedAt := now) else t[k]);
    assert forall c :: c in u ==> exists k :: 0 <= k < |t| && c.id == t[k].id by {
      forall c | c in u ensures exists k :: 0 <= k < |t| && c.id == t[k].id {
        var k :| 0 <= k < |u| && u[k] == c;
      }
    }
    assert Fresh(db) ==> Fresh(db.(companies := u)) by {
      if Fresh(db) {
        CompaniesKeepFresh(db, u);
      }
    }
    db.(companies := u)
  }

  // --------------------------------------------------------------------- teams

  /** `update teams set name, company_id, updated_at` where id matches. */
  function UpdateTeam(db: Db, id: Id, name: string, companyId: Id, now: Timestamp): (r: Db)
    ensures |r.teams| == |db.teams|
    ensures forall k :: 0 <= k < |db.teams| && db.teams[k].id != id ==> r.teams[k] == db.teams[k]
    ensures forall k :: 0 <= k < |db.teams| && db.teams[k].id == id ==>
      r.teams[k] == Team(id, companyId, name, db.teams[k].createdAt, now)
    ensures r.(teams := db.teams) == db
    ensures Fresh(db) ==> Fresh(r)
  {
    var t := db.teams;
    var u := seq(|t|, k requires 0 <= k < |t| =>
      if t[k].id == id then t[k].(name := name, companyId := companyId, updatedAt := now) else t[k]);
    assert forall x :: x in u ==> exists k :: 0 <= k < |t| && x.id == t[k].id by {
      forall x | x in u ensures exists k :: 0 <= k < |t| && x.id == t[k].id {
        var k :| 0 <= k < |u| && u[k] == x;
      }
    }
    assert Fresh(db) ==> Fresh(db.(teams := u)) by {
      if Fresh(db) {
        TeamsKeepFresh(db, u);
      }
    }
    db.(teams := u)
  }

  /** `insert` into `teams`; returns the generated id unless refused. */
  function InsertTeam(db: Db, name: string, companyId: Id, now: Timestamp): (r: (Db, Option<Id>))
    ensures r.1.Some? <==> Accepts(db)
    ensures Fresh(db) ==> Fresh(r.0)
    ensures r.1.Some? ==> r.0.teams == db.teams + [Team(r.1.value, companyId, name, now, now)]
    ensures r.1.None? ==> r.0 == Refused(db)
    ensures r.1.Some? ==> r.0.(teams := db.teams, nextId := db.nextId, inserts := db.inserts) == db
    ensures r.1.Some? ==> r.0.nextId == db.nextId + 1 && r.0.inserts == db.inserts + 1
    ensures Fresh(db) && r.1.Some? ==> r.1.value !in TeamIds(db.teams)
  {
    if !Accepts(db) then (Refused(db), None)
    else
      var id := Gen(db.nextId);
      GenFresh(db.nextId);
      (db.(teams := db.teams + [Team(id, companyId, name, now, now)],
           nextId := db.nextId + 1, inserts := db.inserts + 1),
       Some(id))
  }

  /** `delete` from `teams` where id matches. */
  function DeleteTeam(db: Db, id: Id): (r: Db)
    ensures forall t :: t in r.teams <==> t in db.teams && t.id != id
    ensures IsSubsequence(r.teams, db.teams)
    ensures r.(teams := db.teams) == db
  {
    FilterIsSubsequence(db.teams, TeamKept(id));
    db.(teams := Filter(db.teams, TeamKept(id)))
  }

  // ------------------------------------------------------------------- prompts

  /** The columns the prompt form writes. */
  datatype PromptChanges = PromptChanges(
    promptType: PromptType,
    name: string,
    model: string,
    promptText: string,
    isActive: bool)

  /** `update llm_prompts set ...` where id matches. */
  function UpdatePrompt(db: Db, id: Id, ch: PromptChanges, now: Timestamp): (r: Db)
    ensures |r.prompts| == |db.prompts|
    ensures forall k :: 0 <= k < |db.prompts| && db.prompts[k].id != id ==> r.prompts[k] == db.prompts[k]
    ensures forall k :: 0 <= k < |db.prompts| && db.prompts[k].id == id ==>
      r.prompts[k] == LlmPrompt(id, ch.promptType, ch.name, ch.model, ch.promptText, ch.isActive,
                                db.prompts[k].createdAt, now)
    ensures r.(prompts := db.prompts) == db
    ensures Fresh(db) ==> Fresh(r)
  {
    var t := db.prompts;
    var u := seq(|t|, k requires 0 <= k < |t| =>
      if t[k].id == id then
        t[k].(promptType := ch.promptType, name := ch.name, model := ch.model, promptText := ch.promptText,
              isActive := ch.isActive, updatedAt := now)
      else t[k]);
    assert forall x :: x in u ==> exists k :: 0 <= k < |t| && x.id == t[k].id by {
      forall x | x in u ensures exists k :: 0 <= k < |t| && x.id == t[k].id {
        var k :| 0 <= k < |u| && u[k] == x;
      }
    }
    assert Fresh(db) ==> Fresh(db.(prompts := u)) by {
      if Fresh(db) {
        PromptsKeepFresh(db, u);
      }
    }
    db.(prompts := u)
  }

  /** `insert` into `llm_prompts`; returns the generated id unless refused. */
  function InsertPrompt(db: Db, ch: PromptChanges, now: Timestamp): (r: (Db, Option<Id>))
    ensures r.1.Some? <==> Accepts(db)
    ensures Fresh(db) ==> Fresh(r.0)
    ensures r.1.Some? ==>
      r.0.prompts == db.prompts + [LlmPrompt(r.1.value, ch.promptType, ch.name, ch.model, ch.promptText, ch.isActive, now, now)]
    ensures r.1.None? ==> r.0 == Refused(db)
    ensures r.1.Some? ==> r.0.(prompts := db.prompts, nextId := db.nextId, inserts := db.inserts) == db
    ensures r.1.Some? ==> r.0.nextId == db.nextId + 1 && r.0.inserts == db.inserts + 1
    ensures Fresh(db) && r.1.Some? ==> r.1.value !in PromptIds(db.prompts)
  {
    if !Accepts(db) then (Refused(db), None)
    else
      var id := Gen(db.nextId);
      GenFresh(db.nextId);
      (db.(prompts := db.prompts + [LlmPrompt(id, ch.promptType, ch.name, ch.model, ch.promptText, ch.isActive, now, now)],
           nextId := db.nextId + 1, inserts := db.inserts + 1),
       Some(id))
  }

  // ------------------------------------------------------------------ settings

  /** The columns the integrations form writes. */
  datatype SettingsChanges = SettingsChanges(
    assemblyaiApiKey: Option<string>,
    assemblyaiWebhookSecret: Option<string>,
    llmProvider: string,
    llmApiKey: Option<string>,
    llmBaseUrl: Option<string>,
    llmDefaultModel: Option<string>)

  /** The settings row `s` after writing `ch` to it. */
  function ApplySettings(s: IntegrationSettings, ch: SettingsChanges): IntegrationSettings {
    IntegrationSettings(s.id, ch.assemblyaiApiKey, ch.assemblyaiWebhookSecret, ch.llmProvider,
                        ch.llmApiKey, ch.llmBaseUrl, ch.llmDefaultModel)
  }

  /** `update integration_settings set ...` where id equals `id`; an absent
      id matches no row. */
  function UpdateSettings(db: Db, id: Option<Id>, ch: SettingsChanges): (r: Db)
    ensures |r.settings| == |db.settings|
    ensures forall k :: 0 <= k < |db.settings| && Some(db.settings[k].id) != id ==> r.settings[k] == db.settings[k]
    ensures forall k :: 0 <= k < |db.settings| && Some(db.settings[k].id) == id ==>
      r.settings[k].id == db.settings[k].id && r.settings[k] == ApplySettings(db.settings[k], ch)
    ensures id.None? ==> r == db
    ensures r.(settings := db.settings) == db
  {
    var t := db.settings;
    var u := seq(|t|, k requires 0 <= k < |t| => if Some(t[k].id) == id then ApplySettings(t[k], ch) else t[k]);
    assert id.None? ==> u == t;
    db.(settings := u)
  }
}
