/** Company administration (src/pages/CompaniesPage.tsx): the company list
    with each company's user count and active checklist name, the
    create/edit form, and enabling/disabling. */
module CompaniesPage {
  import opened Types
  import opened Seqs
  import opened Tables
  import opened Lookups
  import opened Store

  /** A listed company with its number of users and its checklist's name. */
  datatype CompanyRow = CompanyRow(company: Company, usersCount: nat, checklistName: string)

  /** Companies are listed newest first. */
  function NewestCompanyFirst(c: Company): int { -c.createdAt }

  /** `users.company_id = companyId`. */
  function InCompany(companyId: Id): User -> bool {
    (u: User) => u.companyId == companyId
  }

  function JoinCompanies(companies: seq<Company>, users: seq<User>, checklists: seq<Checklist>): (r: seq<CompanyRow>)
    ensures |r| == |companies|
    ensures forall k :: 0 <= k < |r| ==> r[k].company == companies[k]
    ensures forall k :: 0 <= k < |r| ==>
      && r[k].usersCount == CountWhere(users, InCompany(companies[k].id))
      && r[k].checklistName == NameOf(checklists, companies[k].activeChecklistId, ChecklistKey, ChecklistName)
  {
    seq(|companies|, k requires 0 <= k < |companies| =>
      CompanyRow(companies[k], CountWhere(users, InCompany(companies[k].id)),
                 NameOf(checklists, companies[k].activeChecklistId, ChecklistKey, ChecklistName)))
  }

  /** A row counts zero users exactly when no user belongs to the company,
      and names the company's active checklist when it is listed ("" when
      the company has none). */
  lemma JoinCompaniesFacts(companies: seq<Company>, users: seq<User>, checklists: seq<Checklist>, k: nat)
    requires DistinctIds(checklists, ChecklistKey) && k < |companies|
    ensures JoinCompanies(companies, users, checklists)[k].usersCount == 0 <==>
      forall u :: u in users ==> u.companyId != companies[k].id
    ensures JoinCompanies(companies, users, checklists)[k].usersCount <= |users|
    ensures forall c :: c in checklists && Some(c.id) == companies[k].activeChecklistId ==>
      JoinCompanies(companies, users, checklists)[k].checklistName == c.name
    ensures companies[k].activeChecklistId.None? ==> JoinCompanies(companies, users, checklists)[k].checklistName == ""
  {
    var row := JoinCompanies(companies, users, checklists)[k];
    if row.usersCount == 0 {
      forall u | u in users ensures u.companyId != companies[k].id {
        var j :| 0 <= j < |users| && users[j] == u;
        assert !InCompany(companies[k].id)(users[j]);
      }
    }
    forall c | c in checklists && Some(c.id) == companies[k].activeChecklistId
      ensures row.checklistName == c.name
    {
      NameOfFound(checklists, companies[k].activeChecklistId, ChecklistKey, ChecklistName, c);
    }
  }

  /** Adding a user to a company raises that company's count by one and
      leaves every other company's count alone. */
  lemma CountAfterInsertUser(db: Db, u: User, companyId: Id)
    requires Tables.InsertUser(db, u).1
    ensures CountWhere(Tables.InsertUser(db, u).0.users, InCompany(companyId)) ==
      CountWhere(db.users, InCompany(companyId)) + (if u.companyId == companyId then 1 else 0)
  {
    CountWhereAppend(db.users, u, InCompany(companyId));
  }

  // ------------------------------------------------------------- the form

  /** The company form; "" in `activeChecklistId` means "none". */
  datatype CompanyForm = CompanyForm(
    name: string,
    description: string,
    activeChecklistId: string,
    status: CompanyStatus)

  const BlankCompanyForm := CompanyForm("", "", "", CompanyStatus.Active)

  /** The form as the edit dialog opens it; null columns show as "". */
  function EditForm(c: Company): (f: CompanyForm)
    ensures f.description == "" <==> c.description.None? || c.description == Some("")
    ensures f.activeChecklistId == "" <==> c.activeChecklistId.None? || c.activeChecklistId == Some("")
    ensures c.activeChecklistId.Some? ==> f.activeChecklistId == c.activeChecklistId.value
  {
    CompanyForm(c.name, NullToEmpty(c.description), NullToEmpty(c.activeChecklistId), c.status)
  }

  /** The columns a submit writes. Only the checklist is turned back into
      null when empty; the description is written as typed. */
  function ChangesOf(f: CompanyForm): (ch: CompanyChanges)
    ensures ch.description == Some(f.description)
    ensures ch.activeChecklistId.None? <==> f.activeChecklistId == ""
    ensures ch.activeChecklistId.Some? ==> ch.activeChecklistId.value == f.activeChecklistId
  {
    CompanyChanges(f.name, Some(f.description), EmptyToNull(f.activeChecklistId), f.status)
  }

  /** Saving the edit dialog unchanged keeps the company except for
      `updated_at` and a missing description, which becomes "". */
  lemma EditUnchangedKeepsCompany(db: Db, k: nat, now: Timestamp)
    requires k < |db.companies| && db.companies[k].activeChecklistId != Some("")
    ensures var c := db.companies[k];
      UpdateCompany(db, c.id, ChangesOf(EditForm(c)), now).companies[k] ==
        c.(description := Some(NullToEmpty(c.description)), updatedAt := now)
    ensures var c := db.companies[k];
      c.description.None? ==> UpdateCompany(db, c.id, ChangesOf(EditForm(c)), now).companies[k].description == Some("")
  {
    NullRoundTrip("", db.companies[k].activeChecklistId);
  }

  /** Enabling and disabling: the status flips. */
  function NextCompanyStatus(s: CompanyStatus): (r: CompanyStatus)
    ensures r != s
  {
    match s
    case Active => Inactive
    case Inactive => CompanyStatus.Active
  }

  lemma NextCompanyStatusTwice(s: CompanyStatus)
    ensures NextCompanyStatus(NextCompanyStatus(s)) == s
  {
  }

  // ------------------------------------------------------------- the page

  class CompaniesPage {
    const store: RecordStore
    var companies: seq<CompanyRow>
    var checklists: seq<Checklist>
    var showModal: bool
    var editing: Option<Company>
    var form: CompanyForm

    /** The list shows the stored companies, newest first, with their counts
        and checklist names. */
    ghost predicate Shows()
      reads this, store
    {
      && companies == JoinCompanies(SortBy(store.db.companies, NewestCompanyFirst), store.db.users, store.db.checklists)
      && checklists == store.db.checklists
    }

    constructor (store: RecordStore)
      ensures this.store == store && Shows()
      ensures !showModal && editing.None? && form == BlankCompanyForm
    {
      this.store := store;
      showModal := false;
      editing := None;
      form := BlankCompanyForm;
      new;
      LoadData();
    }

    method LoadData()
      modifies this`companies, this`checklists
      ensures Shows()
    {
      checklists := store.db.checklists;
      companies := JoinCompanies(SortBy(store.db.companies, NewestCompanyFirst), store.db.users, checklists);
    }

    method OpenEdit(c: Company)
      modifies this`editing, this`form, this`showModal
      ensures editing == Some(c) && form == EditForm(c) && showModal
    {
      editing := Some(c);
      form := EditForm(c);
      showModal := true;
    }

    method OpenCreate()
      modifies this`editing, this`form, this`showModal
      ensures editing.None? && form == BlankCompanyForm && showModal
    {
      editing := None;
      form := BlankCompanyForm;
      showModal := true;
    }

    /** Writes the form to the store: an update of the edited company, or an insert. */
    method Save(now: Timestamp)
      requires store.Valid()
      modifies store
      ensures store.Valid()
      ensures editing.Some? ==> store.db == UpdateCompany(old(store.db), editing.value.id, ChangesOf(form), now)
      ensures editing.None? ==> store.db == Tables.InsertCompany(old(store.db), ChangesOf(form), now).0
    {
      if editing.Some? {
        store.UpdateCompany(editing.value.id, ChangesOf(form), now);
      } else {
        var _ := store.InsertCompany(ChangesOf(form), now);
      }
    }

    /** Saves the form, closes the dialog, clears the form and reloads. */
    method Submit(now: Timestamp)
      requires store.Valid()
      modifies this`companies, this`checklists, this`showModal, this`editing, this`form, store
      ensures store.Valid()
      ensures old(editing).Some? ==>
        store.db == UpdateCompany(old(store.db), old(editing).value.id, ChangesOf(old(form)), now)
      ensures old(editing).None? ==> store.db == Tables.InsertCompany(old(store.db), ChangesOf(old(form)), now).0
      ensures !showModal && editing.None? && form == BlankCompanyForm && Shows()
    {
      Save(now);
      showModal := false;
      editing := None;
      form := BlankCompanyForm;
      LoadData();
    }

    /** Flips the shown status of `c` in the store and reloads. */
    method ToggleStatus(c: Company, now: Timestamp)
      requires store.Valid()
      modifies this`companies, this`checklists, store
      ensures store.Valid()
      ensures store.db == SetCompanyStatus(old(store.db), c.id, NextCompanyStatus(c.status), now)
      ensures Shows()
    {
      store.SetCompanyStatus(c.id, NextCompanyStatus(c.status), now);
      LoadData();
    }
  }
}
