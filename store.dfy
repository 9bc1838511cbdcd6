/** The shared record store every page reads from and writes to. Its state
    is a `Tables.Db` value; each write method replaces it by the result of
    the corresponding `Tables` function, so the pages' contracts can be
    stated (and the clone proved) over values. */
module Store {
  import opened Types
  import opened Tables

  class RecordStore {
    var db: Db

    /** Ids yet to be issued appear nowhere in the store. */
    ghost predicate Valid()
      reads this
    {
      Fresh(db)
    }

    constructor (initial: Db)
      requires Fresh(initial)
      ensures Valid() && db == initial
    {
      db := initial;
    }

    method InsertChecklist(name: string, description: Option<string>, now: Timestamp) returns (id: Option<Id>)
      requires Valid()
      modifies this
      ensures Valid()
      ensures (db, id) == Tables.InsertChecklist(old(db), name, description, now)
    {
      var r := Tables.InsertChecklist(db, name, description, now);
      db, id := r.0, r.1;
    }

    method UpdateChecklist(id: Id, name: string, description: Option<string>, now: Timestamp)
      requires Valid()
      modifies this
      ensures Valid()
      ensures db == Tables.UpdateChecklist(old(db), id, name, description, now)
    {
      db := Tables.UpdateChecklist(db, id, name, description, now);
    }

    method DeleteChecklist(id: Id)
      requires Valid()
      modifies this
      ensures Valid()
      ensures db == Tables.DeleteChecklist(old(db), id)
    {
      db := Tables.DeleteChecklist(db, id);
    }

    method InsertCategory(checklistId: Id, name: string, position: int) returns (id: Option<Id>)
      requires Valid()
      modifies this
      ensures Valid()
      ensures (db, id) == Tables.InsertCategory(old(db), checklistId, name, position)
    {
      var r := Tables.InsertCategory(db, checklistId, name, position);
      db, id := r.0, r.1;
    }

    method InsertItems(drafts: seq<ItemDraft>) returns (ok: bool)
      requires Valid()
      modifies this
      ensures Valid()
      ensures (db, ok) == Tables.InsertItems(old(db), drafts)
    {
      var r := Tables.InsertItems(db, drafts);
      db, ok := r.0, r.1;
    }

    method DeleteCategory(id: Id)
      requires Valid()
      modifies this
      ensures Valid()
      ensures db == Tables.DeleteCategory(old(db), id)
    {
      db := Tables.DeleteCategory(db, id);
    }

    method DeleteItem(id: Id)
      requires Valid()
      modifies this
      ensures Valid()
      ensures db == Tables.DeleteItem(old(db), id)
    {
      db := Tables.DeleteItem(db, id);
    }

    method SetItemActive(id: Id, active: bool)
      requires Valid()
      modifies this
      ensures Valid()
      ensures db == Tables.SetItemActive(old(db), id, active)
    {
      db := Tables.SetItemActive(db, id, active);
    }

    method UpdateUser(id: Id, ch: UserChanges, now: Timestamp)
      requires Valid()
      modifies this
      ensures Valid()
      ensures db == Tables.UpdateUser(old(db), id, ch, now)
    {
      db := Tables.UpdateUser(db, id, ch, now);
    }

    method InsertUser(u: User) returns (ok: bool)
      requires Valid()
      modifies this
      ensures Valid()
      ensures (db, ok) == Tables.InsertUser(old(db), u)
    {
      var r := Tables.InsertUser(db, u);
      db, ok := r.0, r.1;
    }

    method SetUserStatus(id: Id, status: UserStatus, now: Timestamp)
      requires Valid()
      modifies this
      ensures Valid()
      ensures db == Tables.SetUserStatus(old(db), id, status, now)
    {
      db := Tables.SetUserStatus(db, id, status, now);
    }

    method UpdateCompany(id: Id, ch: CompanyChanges, now: Timestamp)
      requires Valid()
      modifies this
      ensures Valid()
      ensures db == Tables.UpdateCompany(old(db), id, ch, now)
    {
      db := Tables.UpdateCompany(db, id, ch, now);
    }

    method InsertCompany(ch: CompanyChanges, now: Timestamp) returns (id: Option<Id>)
      requires Valid()
      modifies this
      ensures Valid()
      ensures (db, id) == Tables.InsertCompany(old(db), ch, now)
    {
      var r := Tables.InsertCompany(db, ch, now);
      db, id := r.0, r.1;
    }

    method SetCompanyStatus(id: Id, status: CompanyStatus, now: Timestamp)
      requires Valid()
      modifies this
      ensures Valid()
      ensures db == Tables.SetCompanyStatus(old(db), id, status, now)
    {
      db := Tables.SetCompanyStatus(db, id, status, now);
    }

    method UpdateTeam(id: Id, name: string, companyId: Id, now: Timestamp)
      requires Valid()
      modifies this
      ensures Valid()
      ensures db == Tables.UpdateTeam(old(db), id, name, companyId, now)
    {
      db := Tables.UpdateTeam(db, id, name, companyId, now);
    }

    method InsertTeam(name: string, companyId: Id, now: Timestamp) returns (id: Option<Id>)
      requires Valid()
      modifies this
      ensures Valid()
      ensures (db, id) == Tables.InsertTeam(old(db), name, companyId, now)
    {
      var r := Tables.InsertTeam(db, name, companyId, now);
      db, id := r.0, r.1;
    }

    method DeleteTeam(id: Id)
      requires Valid()
      modifies this
      ensures Valid()
      ensures db == Tables.DeleteTeam(old(db), id)
    {
      db := Tables.DeleteTeam(db, id);
    }

    method UpdatePrompt(id: Id, ch: PromptChanges, now: Timestamp)
      requires Valid()
      modifies this
      ensures Valid()
      ensures db == Tables.UpdatePrompt(old(db), id, ch, now)
    {
      db := Tables.UpdatePrompt(db, id, ch, now);
    }

    method InsertPrompt(ch: PromptChanges, now: Timestamp) returns (id: Option<Id>)
      requires Valid()
      modifies this
      ensures Valid()
      ensures (db, id) == Tables.InsertPrompt(old(db), ch, now)
    {
      var r := Tables.InsertPrompt(db, ch, now);
      db, id := r.0, r.1;
    }

    method UpdateSettings(id: Option<Id>, ch: SettingsChanges)
      requires Valid()
      modifies this
      ensures Valid()
      ensures db == Tables.UpdateSettings(old(db), id, ch)
    {
      db := Tables.UpdateSettings(db, id, ch);
    }
  }
}
