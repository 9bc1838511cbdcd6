/** User administration (src/pages/UsersPage.tsx): the user list joined with
    company and team names, the create/edit form whose team choice is
    limited to the chosen company's teams, and blocking/unblocking. */
module UsersPage {
  import opened Types
  import opened Seqs
  import opened Tables
  import opened Lookups
  import opened Store

  /** A listed user with the names of their company and team. */
  datatype UserRow = UserRow(user: User, companyName: string, teamName: string)

  /** Users are listed newest first. */
  function NewestUserFirst(u: User): int { -u.createdAt }

  function JoinUsers(users: seq<User>, companies: seq<Company>, teams: seq<Team>): (r: seq<UserRow>)
    ensures |r| == |users|
    ensures forall k :: 0 <= k < |r| ==> r[k].user == users[k]
    ensures forall k :: 0 <= k < |r| ==>
      && r[k].companyName == NameOf(companies, Some(users[k].companyId), CompanyKey, CompanyName)
      && r[k].teamName == NameOf(teams, users[k].teamId, TeamKey, TeamName)
  {
    seq(|users|, k requires 0 <= k < |users| =>
      UserRow(users[k], NameOf(companies, Some(users[k].companyId), CompanyKey, CompanyName),
              NameOf(teams, users[k].teamId, TeamKey, TeamName)))
  }

  /** Each row names the user's company and team when they are listed; a
      user without a team shows an empty team name. */
  lemma JoinUsersNames(users: seq<User>, companies: seq<Company>, teams: seq<Team>, k: nat)
    requires DistinctIds(companies, CompanyKey) && DistinctIds(teams, TeamKey) && k < |users|
    ensures forall c :: c in companies && c.id == users[k].companyId ==>
      JoinUsers(users, companies, teams)[k].companyName == c.name
    ensures forall t :: t in teams && Some(t.id) == users[k].teamId ==>
      JoinUsers(users, companies, teams)[k].teamName == t.name
    ensures users[k].teamId.None? ==> JoinUsers(users, companies, teams)[k].teamName == ""
  {
    forall c | c in companies && c.id == users[k].companyId
      ensures JoinUsers(users, companies, teams)[k].companyName == c.name
    {
      NameOfFound(companies, Some(users[k].companyId), CompanyKey, CompanyName, c);
    }
    forall t | t in teams && Some(t.id) == users[k].teamId
      ensures JoinUsers(users, companies, teams)[k].teamName == t.name
    {
      NameOfFound(teams, users[k].teamId, TeamKey, TeamName, t);
    }
  }

  // ------------------------------------------------------------- the form

  /** The user form; "" in `companyId` / `teamId` means "not chosen". */
  datatype UserForm = UserForm(
    fullName: string,
    email: string,
    role: UserRole,
    companyId: string,
    teamId: string,
    status: UserStatus)

  /** The form as the create dialog opens it and as a submit leaves it. */
  const BlankUserForm := UserForm("", "", Manager, "", "", UserStatus.Active)

  /** The form as the edit dialog opens it for `u`; no team shows as "". */
  function EditForm(u: User): (f: UserForm)
    ensures f.teamId == "" <==> u.teamId.None? || u.teamId == Some("")
    ensures u.teamId.Some? ==> f.teamId == u.teamId.value
  {
    UserForm(u.fullName, u.email, u.role, u.companyId, NullToEmpty(u.teamId), u.status)
  }

  /** The columns a submit writes; an unchosen team is stored as null. */
  function ChangesOf(f: UserForm): (ch: UserChanges)
    ensures ch.teamId.None? <==> f.teamId == ""
    ensures ch.teamId.Some? ==> ch.teamId.value == f.teamId
  {
    UserChanges(f.fullName, f.email, f.role, f.companyId, EmptyToNull(f.teamId), f.status)
  }

  /** The row a create inserts under the id the sign-up returned. */
  function NewUser(f: UserForm, id: Id, now: Timestamp): (u: User)
    ensures u.id == id && u.passwordHash == ""
    ensures u.teamId == ChangesOf(f).teamId
  {
    User(id, f.companyId, EmptyToNull(f.teamId), f.email, "", f.fullName, f.role, f.status, now, now)
  }

  /** Opening the edit dialog and saving it unchanged rewrites the row with
      its own values: only `updated_at` moves (a team id is never ""). */
  lemma EditUnchangedKeepsUser(db: Db, k: nat, now: Timestamp)
    requires k < |db.users| && db.users[k].teamId != Some("")
    ensures var u := db.users[k];
      UpdateUser(db, u.id, ChangesOf(EditForm(u)), now).users[k] == u.(updatedAt := now)
  {
    NullRoundTrip("", db.users[k].teamId);
  }

  /** The teams the team select offers: those of the chosen company. */
  function OfCompany(companyId: Id): Team -> bool {
    (t: Team) => t.companyId == companyId
  }

  function TeamsOf(teams: seq<Team>, companyId: Id): (r: seq<Team>)
    ensures forall t :: t in r <==> t in teams && t.companyId == companyId
  {
    Filter(teams, OfCompany(companyId))
  }

  /** The form's team is unset or one of its company's teams. */
  ghost predicate TeamInCompany(f: UserForm, teams: seq<Team>) {
    f.teamId == "" || exists t :: t in teams && t.id == f.teamId && t.companyId == f.companyId
  }

  /** Saving a form whose team belongs to its company gives the user either
      no team or a team of their company. */
  lemma SavedTeamInCompany(db: Db, id: Id, f: UserForm, now: Timestamp)
    requires TeamInCompany(f, db.teams)
    ensures forall u :: u in UpdateUser(db, id, ChangesOf(f), now).users && u.id == id ==>
      u.teamId.None? || exists t :: t in db.teams && Some(t.id) == u.teamId && t.companyId == u.companyId
  {
    var r := UpdateUser(db, id, ChangesOf(f), now);
    forall u | u in r.users && u.id == id
      ensures u.teamId.None? || exists t :: t in db.teams && Some(t.id) == u.teamId && t.companyId == u.companyId
    {
      var k :| 0 <= k < |r.users| && r.users[k] == u;
      if f.teamId != "" {
        var t :| t in db.teams && t.id == f.teamId && t.companyId == f.companyId;
        assert Some(t.id) == u.teamId;
      }
    }
  }

  /** Blocking and unblocking: the status flips. */
  function NextUserStatus(s: UserStatus): (r: UserStatus)
    ensures r != s
  {
    match s
    case Active => Blocked
    case Blocked => UserStatus.Active
  }

  lemma NextUserStatusTwice(s: UserStatus)
    ensures NextUserStatus(NextUserStatus(s)) == s
  {
  }

  // ------------------------------------------------------------- the page

  class UsersPage {
    const store: RecordStore
    var users: seq<UserRow>
    var companies: seq<Company>
    var teams: seq<Team>
    var showModal: bool
    var editing: Option<User>
    var form: UserForm

    /** The list shows the stored users, newest first, with their names. */
    ghost predicate Shows()
      reads this, store
    {
      && users == JoinUsers(SortBy(store.db.users, NewestUserFirst), store.db.companies, store.db.teams)
      && companies == store.db.companies
      && teams == store.db.teams
    }

    constructor (store: RecordStore)
      ensures this.store == store && Shows()
      ensures !showModal && editing.None? && form == BlankUserForm
    {
      this.store := store;
      showModal := false;
      editing := None;
      form := BlankUserForm;
      new;
      LoadData();
    }

    method LoadData()
      modifies this`users, this`companies, this`teams
      ensures Shows()
    {
      companies := store.db.companies;
      teams := store.db.teams;
      users := JoinUsers(SortBy(store.db.users, NewestUserFirst), companies, teams);
    }

    method OpenEdit(u: User)
      modifies this`editing, this`form, this`showModal
      ensures editing == Some(u) && form == EditForm(u) && showModal
    {
      editing := Some(u);
      form := EditForm(u);
      showModal := true;
    }

    method OpenCreate()
      modifies this`editing, this`form, this`showModal
      ensures editing.None? && form == BlankUserForm && showModal
      ensures TeamInCompany(form, teams)
    {
      editing := None;
      form := BlankUserForm;
      showModal := true;
    }

    /** Choosing a company clears the team, since the offered teams change. */
    method SelectCompany(companyId: Id)
      modifies this`form
      ensures form == old(form).(companyId := companyId, teamId := "")
      ensures TeamInCompany(form, teams)
    {
      form := form.(companyId := companyId, teamId := "");
    }

    /** Choosing "None" or one of the offered teams keeps the team in the company. */
    method SelectTeam(teamId: Id)
      requires teamId == "" || exists t :: t in TeamsOf(teams, form.companyId) && t.id == teamId
      modifies this`form
      ensures form == old(form).(teamId := teamId)
      ensures TeamInCompany(form, teams)
    {
      form := form.(teamId := teamId);
    }

    /** Writes the form: an update of the edited user, or, when creating, an
        insert under the id the sign-up returned (none when it failed). */
    method Save(signedUp: Option<Id>, now: Timestamp)
      requires store.Valid()
      modifies store
      ensures store.Valid()
      ensures editing.Some? ==> store.db == UpdateUser(old(store.db), editing.value.id, ChangesOf(form), now)
      ensures editing.None? && signedUp.Some? ==>
        store.db == Tables.InsertUser(old(store.db), NewUser(form, signedUp.value, now)).0
      ensures editing.None? && signedUp.None? ==> store.db == old(store.db)
    {
      if editing.Some? {
        store.UpdateUser(editing.value.id, ChangesOf(form), now);
      } else if signedUp.Some? {
        var _ := store.InsertUser(NewUser(form, signedUp.value, now));
      }
    }

    /** Saves the form, closes the dialog, clears the form and reloads. */
    method Submit(signedUp: Option<Id>, now: Timestamp)
      requires store.Valid()
      modifies this`users, this`companies, this`teams, this`showModal, this`editing, this`form, store
      ensures store.Valid()
      ensures old(editing).Some? ==>
        store.db == UpdateUser(old(store.db), old(editing).value.id, ChangesOf(old(form)), now)
      ensures old(editing).None? && signedUp.Some? ==>
        store.db == Tables.InsertUser(old(store.db), NewUser(old(form), signedUp.value, now)).0
      ensures old(editing).None? && signedUp.None? ==> store.db == old(store.db)
      ensures !showModal && editing.None? && form == BlankUserForm && Shows()
    {
      Save(signedUp, now);
      showModal := false;
      editing := None;
      form := BlankUserForm;
      LoadData();
    }

    /** Flips the shown status of `u` in the store and reloads. */
    method ToggleStatus(u: User, now: Timestamp)
      requires store.Valid()
      modifies this`users, this`companies, this`teams, store
      ensures store.Valid()
      ensures store.db == SetUserStatus(old(store.db), u.id, NextUserStatus(u.status), now)
      ensures Shows()
    {
      store.SetUserStatus(u.id, NextUserStatus(u.status), now);
      LoadData();
    }
  }
}
