/** Team administration (src/pages/TeamsPage.tsx): the team list with each
    team's company name and user count, the create/edit form and deletion
    after confirmation. */
module TeamsPage {
  import opened Types
  import opened Seqs
  import opened Tables
  import opened Lookups
  import opened Store

  /** A listed team with its company's name and its number of users. */
  datatype TeamRow = TeamRow(team: Team, companyName: string, usersCount: nat)

  /** Teams are listed newest first. */
  function NewestTeamFirst(t: Team): int { -t.createdAt }

  /** `users.team_id = teamId`; a user without a team is in none. */
  function InTeam(teamId: Id): User -> bool {
    (u: User) => u.teamId == Some(teamId)
  }

  function JoinTeams(teams: seq<Team>, companies: seq<Company>, users: seq<User>): (r: seq<TeamRow>)
    ensures |r| == |teams|
    ensures forall k :: 0 <= k < |r| ==> r[k].team == teams[k]
    ensures forall k :: 0 <= k < |r| ==>
      && r[k].companyName == NameOf(companies, Some(teams[k].companyId), CompanyKey, CompanyName)
      && r[k].usersCount == CountWhere(users, InTeam(teams[k].id))
  {
    seq(|teams|, k requires 0 <= k < |teams| =>
      TeamRow(teams[k], NameOf(companies, Some(teams[k].companyId), CompanyKey, CompanyName),
              CountWhere(users, InTeam(teams[k].id))))
  }

  /** A row names the team's company when it is listed, and counts zero
      users exactly when no user is in the team. */
  lemma JoinTeamsFacts(teams: seq<Team>, companies: seq<Company>, users: seq<User>, k: nat)
    requires DistinctIds(companies, CompanyKey) && k < |teams|
    ensures forall c :: c in companies && c.id == teams[k].companyId ==>
      JoinTeams(teams, companies, users)[k].companyName == c.name
    ensures JoinTeams(teams, companies, users)[k].usersCount == 0 <==>
      forall u :: u in users ==> u.teamId != Some(teams[k].id)
  {
    var row := JoinTeams(teams, companies, users)[k];
    forall c | c in companies && c.id == teams[k].companyId ensures row.companyName == c.name {
      NameOfFound(companies, Some(teams[k].companyId), CompanyKey, CompanyName, c);
    }
    if row.usersCount == 0 {
      forall u | u in users ensures u.teamId != Some(teams[k].id) {
        var j :| 0 <= j < |users| && users[j] == u;
        assert !InTeam(teams[k].id)(users[j]);
      }
    }
  }

  /** After a team is deleted the reloaded list holds exactly the other
      teams: the deleted one is gone and no other team is lost. */
  lemma DeletedTeamNotListed(db: Db, id: Id)
    ensures forall t :: t in SortBy(DeleteTeam(db, id).teams, NewestTeamFirst) <==> t in db.teams && t.id != id
  {
    var kept := DeleteTeam(db, id).teams;
    var sorted := SortBy(kept, NewestTeamFirst);
    forall t ensures t in sorted <==> t in kept {
      assert t in sorted <==> t in multiset(sorted);
    }
  }

  // ------------------------------------------------------------- the form

  datatype TeamForm = TeamForm(name: string, companyId: Id)

  const BlankTeamForm := TeamForm("", "")

  function EditForm(t: Team): TeamForm {
    TeamForm(t.name, t.companyId)
  }

  /** Saving the edit dialog unchanged rewrites the team with its own
      values: only `updated_at` moves. */
  lemma EditUnchangedKeepsTeam(db: Db, k: nat, now: Timestamp)
    requires k < |db.teams|
    ensures var t := db.teams[k]; var f := EditForm(t);
      UpdateTeam(db, t.id, f.name, f.companyId, now).teams[k] == t.(updatedAt := now)
  {
  }

  // ------------------------------------------------------------- the page

  class TeamsPage {
    const store: RecordStore
    var teams: seq<TeamRow>
    var companies: seq<Company>
    var showModal: bool
    var editing: Option<Team>
    var form: TeamForm

    /** The list shows the stored teams, newest first, with their company
        names and user counts. */
    ghost predicate Shows()
      reads this, store
    {
      && teams == JoinTeams(SortBy(store.db.teams, NewestTeamFirst), store.db.companies, store.db.users)
      && companies == store.db.companies
    }

    constructor (store: RecordStore)
      ensures this.store == store && Shows()
      ensures !showModal && editing.None? && form == BlankTeamForm
    {
      this.store := store;
      showModal := false;
      editing := None;
      form := BlankTeamForm;
      new;
      LoadData();
    }

    method LoadData()
      modifies this`teams, this`companies
      ensures Shows()
    {
      companies := store.db.companies;
      teams := JoinTeams(SortBy(store.db.teams, NewestTeamFirst), companies, store.db.users);
    }

    method OpenEdit(t: Team)
      modifies this`editing, this`form, this`showModal
      ensures editing == Some(t) && form == EditForm(t) && showModal
    {
      editing := Some(t);
      form := EditForm(t);
      showModal := true;
    }

    method OpenCreate()
      modifies this`editing, this`form, this`showModal
      ensures editing.None? && form == BlankTeamForm && showModal
    {
      editing := None;
      form := BlankTeamForm;
      showModal := true;
    }

    /** Writes the form to the store: an update of the edited team, or an insert. */
    method Save(now: Timestamp)
      requires store.Valid()
      modifies store
      ensures store.Valid()
      ensures editing.Some? ==> store.db == UpdateTeam(old(store.db), editing.value.id, form.name, form.companyId, now)
      ensures editing.None? ==> store.db == Tables.InsertTeam(old(store.db), form.name, form.companyId, now).0
    {
      if editing.Some? {
        store.UpdateTeam(editing.value.id, form.name, form.companyId, now);
      } else {
        var _ := store.InsertTeam(form.name, form.companyId, now);
      }
    }

    /** Saves the form, closes the dialog, clears the form and reloads. */
    method Submit(now: Timestamp)
      requires store.Valid()
      modifies this`teams, this`companies, this`showModal, this`editing, this`form, store
      ensures store.Valid()
      ensures old(editing).Some? ==>
        store.db == UpdateTeam(old(store.db), old(editing).value.id, old(form).name, old(form).companyId, now)
      ensures old(editing).None? ==>
        store.db == Tables.InsertTeam(old(store.db), old(form).name, old(form).companyId, now).0
      ensures !showModal && editing.None? && form == BlankTeamForm && Shows()
    {
      Save(now);
      showModal := false;
      editing := None;
      form := BlankTeamForm;
      LoadData();
    }

    /** Deletes the team when the user confirms, then reloads; otherwise
        nothing happens. */
    method DeleteTeam(id: Id, confirmed: bool)
      requires store.Valid()
      modifies this`teams, this`companies, store
      ensures store.Valid()
      ensures confirmed ==> store.db == Tables.DeleteTeam(old(store.db), id) && Shows()
      ensures !confirmed ==> store.db == old(store.db) && teams == old(teams) && companies == old(companies)
    {
      if confirmed {
        store.DeleteTeam(id);
        LoadData();
      }
    }
  }
}
