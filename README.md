# Admin console over a record store — a Dafny model

The system is a web admin console for a call-analysis service. Its pages read
rows from a remote record store, join them on the client, and write form edits
back. The core modelled here:

- **Checklist editor.** The three-level checklist tree: checklist → categories
  → items. Modelled operations:
  - the deep clone;
  - adding categories and items at the next position;
  - deleting categories and items;
  - the active flag of an item;
  - the set of expanded categories;
  - the checklist form;
  - which checklist is selected after a load.
- **Processing-log browser.** Up to four optional equality filters, newest
  first, at most one hundred rows, each row joined to its company's name.
- **User, company and team pages.** For each:
  - the client-side joins, which look up a name by id and count users per
    parent;
  - the two-state status flips;
  - the edit and create forms, including their empty-string ↔ null
    normalisation;
  - the team choice restricted to the selected company.
- **Prompt page.** Prompts are partitioned into one section per prompt type.
- **Integration settings page.** The load and save mappings, which turn null
  into "" and "" into null, and the saving/saved flags.

The record store is the class `Store.RecordStore`. It holds one value of the
datatype `Tables.Db`, which has one sequence per table. Sequence order stands
for the order in which the store returns rows to a query without `order`. The
store also holds:

- a counter from which new row ids are generated (`Ids.Gen`);
- a counter of insert calls;
- the set of insert calls the store refuses, which is the fault model.

Every store call is a pure function in `Tables`. The matching
`RecordStore` method replaces its state by that function's result. Each page
is a class over a shared `RecordStore`:

- its fields are the page's state variables;
- its methods are the page's handlers, one statement per store call;
- `Shows()` states that the fields hold what the page displays for the
  current store.

Files:

| file | module | contents |
|---|---|---|
| types.dfy | Types | enumerations and records of `src/types/database.ts`; "" ↔ null |
| ids.dfy | Ids | generated ids: decimal digits of a counter, parsed back |
| seqs.dfy | Seqs | filter, find, ordering by a key, limit |
| lookups.dfy | Lookups | lookup of a name by id, counting rows that point at a parent |
| tables.dfy | Tables | every store call the pages make, as a function on `Db` |
| store.dfy | Store | the store object |
| checklist_tree.dfy | ChecklistTree | the clone as a function, and its shape theorems |
| checklists_page.dfy | ChecklistsPage | the checklist editor page |
| logs_page.dfy | LogsPage | the log browser |
| users_page.dfy | UsersPage | the user page |
| companies_page.dfy | CompaniesPage | the company page |
| teams_page.dfy | TeamsPage | the team page |
| prompts_page.dfy | PromptsPage | the prompt page |
| integrations_page.dfy | IntegrationsPage | the settings page |

## Model

| member | source | states |
|---|---|---|
| Types.ParseUserRole | src/types/database.ts:1 | a role name is accepted exactly when it is "manager", "lead" or "admin", and then parses to the role of that name |
| Types.ParseUserStatus | src/types/database.ts:2 | exactly "active" and "blocked" are user statuses |
| Types.ParseCompanyStatus | src/types/database.ts:3 | exactly "active" and "inactive" are company statuses |
| Types.ParsePromptType | src/types/database.ts:6 | exactly "summary", "recommendations" and "checklist" are prompt types |
| Types.ParseLogStatus | src/types/database.ts:7 | exactly "ok" and "error" are log statuses |
| Types.EnumNamesRoundTrip | src/types/database.ts:1-7 | the stored name of every enumeration value parses back to that value |
| Types.EmptyToNull | src/pages/UsersPage.tsx:64 | `x \|\| null`: "" becomes null and every other string is kept |
| Types.NullToEmpty | src/pages/CompaniesPage.tsx:97 | `x \|\| ''`: null becomes "" and a present string is kept |
| Types.NullRoundTrip | src/pages/CompaniesPage.tsx:97-98 | the edit form's null→"" followed by save's ""→null gives back every optional value except a stored "" |
| Ids.DigitsRoundTrip | src/pages/ChecklistsPage.tsx:99-106 | a generated id reads back as the counter it was generated from |
| Ids.GenParses | src/pages/ChecklistsPage.tsx:99-106 | a generated id parses as its counter |
| Ids.GenFresh | src/pages/ChecklistsPage.tsx:99-106 | the id generated at counter n differs from every id issued before n |
| Ids.GenInjective | src/pages/ChecklistsPage.tsx:99-106 | different counters generate different ids |
| Seqs.Filter | src/pages/ChecklistsPage.tsx:304 | `filter`: the result holds exactly the elements satisfying the predicate and is no longer than the input |
| Seqs.FindIndex | src/pages/LogsPage.tsx:47 | `find`: the index of the first element satisfying the predicate, or -1 when no element does |
| Seqs.SortByIsSorted | src/pages/ChecklistsPage.tsx:34 | ordering by a key yields a sequence sorted by that key; `SortBy` keeps length and multiset |
| Seqs.FilterIsSubsequence | src/pages/PromptsPage.tsx:82-84 | filtering keeps the input order |
| Seqs.FilterPartition3 | src/pages/PromptsPage.tsx:82-84 | filtering by three predicates that split every element gives the input's multiset back |
| Seqs.TakeSortedKeepsLeast | src/pages/LogsPage.tsx:25 | `limit` on a sorted sequence keeps elements whose keys do not exceed any key it cut off |
| Seqs.Take | src/pages/LogsPage.tsx:25 | `limit(n)`: a prefix of the input holding exactly n elements when the input is longer, and the whole input otherwise |
| Lookups.NameOf | src/pages/LogsPage.tsx:47-50 | `find(...)?.name \|\| ''`: "" for an absent id or no match, otherwise the name of the first row with that id |
| Lookups.NameOfFound | src/pages/UsersPage.tsx:36-41 | with distinct ids, the lookup yields the name of the row with that id, wherever it stands |
| Lookups.CountWhere | src/pages/CompaniesPage.tsx:33-36 | an exact count is at most the table size, and is 0 exactly when no row matches |
| Lookups.CountWhereAppend | src/pages/CompaniesPage.tsx:33-36 | appending a row raises the count by one exactly when the row matches |
| Lookups.OrDash | src/pages/LogsPage.tsx:190 | `s \|\| '-'`: "" is shown as "-", anything else as itself |
| Tables.InsertChecklist | src/pages/ChecklistsPage.tsx:74 | an id comes back exactly when the store accepts the call; then exactly the new checklist (that id, the form's name and description, both timestamps `now`) is appended, the id is fresh, and no other table changes; a refused call changes only the call counter |
| Tables.UpdateChecklist | src/pages/ChecklistsPage.tsx:66-72 | only the row with the id changes: its name, description and `updated_at`; the others stay in place and no other table changes |
| Tables.DeleteChecklist | src/pages/ChecklistsPage.tsx:85 | exactly the rows with other ids remain, in order; no other table changes |
| Tables.InsertCategory | src/pages/ChecklistsPage.tsx:157-161 | a category is inserted exactly when the store accepts the call and its checklist exists; then exactly that category (fresh id, the checklist, name and position) is appended and no other table changes; a refused call changes only the call counter |
| Tables.InsertItems | src/pages/ChecklistsPage.tsx:133-141 | a batch of items is inserted exactly when the store accepts the call and every category exists; then one row per draft, in order, with the draft's fields and consecutive new ids, is appended and no other table changes; a refused call changes only the call counter |
| Tables.StampKeepsFresh | src/pages/ChecklistsPage.tsx:133-141 | appending an accepted batch of items under existing categories keeps every id fresh |
| Tables.DeleteCategory | src/pages/ChecklistsPage.tsx:168 | exactly the categories with other ids remain, in order; no other table changes |
| Tables.DeleteItem | src/pages/ChecklistsPage.tsx:191 | exactly the items with other ids remain, in order; no other table changes |
| Tables.SetItemActive | src/pages/ChecklistsPage.tsx:197-200 | only the item with the id changes, and only its active flag; no other table changes |
| Tables.UpdateUser | src/pages/UsersPage.tsx:57-68 | only the user with the id changes: the form's fields and `updated_at`; id, password hash, creation time and other tables stay |
| Tables.InsertUser | src/pages/UsersPage.tsx:77-86 | the row is appended exactly when the store accepts it and its id is new; nothing else changes |
| Tables.SetUserStatus | src/pages/UsersPage.tsx:97-103 | only the user with the id changes: its status and `updated_at` |
| Tables.UpdateCompany | src/pages/CompaniesPage.tsx:61-68 | only the company with the id changes, to the form's values and a new `updated_at`; no other table changes |
| Tables.InsertCompany | src/pages/CompaniesPage.tsx:70-73 | when accepted, exactly one company with the form's values and a fresh id is appended and no other table changes; a refused call changes only the call counter |
| Tables.SetCompanyStatus | src/pages/CompaniesPage.tsx:83-89 | only the company with the id changes: its status and `updated_at`; no other table changes |
| Tables.UpdateTeam | src/pages/TeamsPage.tsx:58-64 | only the team with the id changes: name, company and `updated_at`; no other table changes |
| Tables.InsertTeam | src/pages/TeamsPage.tsx:66 | when accepted, exactly one team with the form's name and company and a fresh id is appended and no other table changes; a refused call changes only the call counter |
| Tables.DeleteTeam | src/pages/TeamsPage.tsx:77 | exactly the teams with other ids remain, in order; no other table changes |
| Tables.UpdatePrompt | src/pages/PromptsPage.tsx:41-47 | only the prompt with the id changes, to the form's five fields and a new `updated_at`; no other table changes |
| Tables.InsertPrompt | src/pages/PromptsPage.tsx:49 | when accepted, exactly one prompt with the form's fields and a fresh id is appended and no other table changes; a refused call changes only the call counter |
| Tables.UpdateSettings | src/pages/IntegrationsPage.tsx:50-60 | only the settings row whose id equals the loaded id changes; an absent id changes nothing |
| Tables.ChecklistsKeepFresh | src/pages/ChecklistsPage.tsx:66-72 | rewriting rows in place under their own ids keeps every id fresh |
| Tables.CompaniesKeepFresh | src/pages/CompaniesPage.tsx:61-68 | as above, for companies |
| Tables.TeamsKeepFresh | src/pages/TeamsPage.tsx:58-64 | as above, for teams |
| Tables.PromptsKeepFresh | src/pages/PromptsPage.tsx:41-47 | as above, for prompts |
| Store.RecordStore.constructor | src/pages/ChecklistsPage.tsx:29-34 | a store starts from a state whose ids are fresh |
| Store.RecordStore.InsertChecklist | src/pages/ChecklistsPage.tsx:74 | the store's new state and the returned id are those of `Tables.InsertChecklist`; ids stay fresh |
| Store.RecordStore.UpdateChecklist | src/pages/ChecklistsPage.tsx:66-72 | the new state is `Tables.UpdateChecklist` of the old |
| Store.RecordStore.DeleteChecklist | src/pages/ChecklistsPage.tsx:85 | the new state is `Tables.DeleteChecklist` of the old |
| Store.RecordStore.InsertCategory | src/pages/ChecklistsPage.tsx:157-161 | the new state and id are `Tables.InsertCategory` of the old |
| Store.RecordStore.InsertItems | src/pages/ChecklistsPage.tsx:133-141 | the new state and outcome are `Tables.InsertItems` of the old |
| Store.RecordStore.DeleteCategory | src/pages/ChecklistsPage.tsx:168 | the new state is `Tables.DeleteCategory` of the old |
| Store.RecordStore.DeleteItem | src/pages/ChecklistsPage.tsx:191 | the new state is `Tables.DeleteItem` of the old |
| Store.RecordStore.SetItemActive | src/pages/ChecklistsPage.tsx:197-200 | the new state is `Tables.SetItemActive` of the old |
| Store.RecordStore.UpdateUser | src/pages/UsersPage.tsx:57-68 | the new state is `Tables.UpdateUser` of the old |
| Store.RecordStore.InsertUser | src/pages/UsersPage.tsx:77-86 | the new state and outcome are `Tables.InsertUser` of the old |
| Store.RecordStore.SetUserStatus | src/pages/UsersPage.tsx:97-103 | the new state is `Tables.SetUserStatus` of the old |
| Store.RecordStore.UpdateCompany | src/pages/CompaniesPage.tsx:61-68 | the new state is `Tables.UpdateCompany` of the old |
| Store.RecordStore.InsertCompany | src/pages/CompaniesPage.tsx:70-73 | the new state and id are `Tables.InsertCompany` of the old |
| Store.RecordStore.SetCompanyStatus | src/pages/CompaniesPage.tsx:83-89 | the new state is `Tables.SetCompanyStatus` of the old |
| Store.RecordStore.UpdateTeam | src/pages/TeamsPage.tsx:58-64 | the new state is `Tables.UpdateTeam` of the old |
| Store.RecordStore.InsertTeam | src/pages/TeamsPage.tsx:66 | the new state and id are `Tables.InsertTeam` of the old |
| Store.RecordStore.DeleteTeam | src/pages/TeamsPage.tsx:77 | the new state is `Tables.DeleteTeam` of the old |
| Store.RecordStore.UpdatePrompt | src/pages/PromptsPage.tsx:41-47 | the new state is `Tables.UpdatePrompt` of the old |
| Store.RecordStore.InsertPrompt | src/pages/PromptsPage.tsx:49 | the new state and id are `Tables.InsertPrompt` of the old |
| Store.RecordStore.UpdateSettings | src/pages/IntegrationsPage.tsx:50-60 | the new state is `Tables.UpdateSettings` of the old |
| ChecklistTree.CategoriesOf | src/pages/ChecklistsPage.tsx:109-112 | the categories read for a checklist are exactly those whose checklist id matches |
| ChecklistTree.ItemsOf | src/pages/ChecklistsPage.tsx:127-130 | the items read for a category are exactly those whose category id matches |
| ChecklistTree.FindChecklist | src/pages/ChecklistsPage.tsx:92-96 | the single-row read yields a row only if it has the id, yields the only such row, and yields nothing when no row has it |
| ChecklistTree.FindChecklistFinds | src/pages/ChecklistsPage.tsx:92-96 | with unique ids, every existing checklist is found by its id |
| ChecklistTree.CopyDrafts | src/pages/ChecklistsPage.tsx:133-140 | one copy per source item, in order, each under the new category |
| ChecklistTree.CopyDraftsShape | src/pages/ChecklistsPage.tsx:133-140 | the inserted copies have the source items' names, descriptions, positions and active flags, in order |
| ChecklistTree.CopyCategoriesSnoc | src/pages/ChecklistsPage.tsx:115-144 | the copy loop over one more category is one more iteration of its body |
| ChecklistTree.CopyCategoryCalls | src/pages/ChecklistsPage.tsx:116-141 | when the store accepts both calls, one iteration appends one category under the new checklist, named and positioned as the source's, and one item per source item |
| ChecklistTree.CopyCategoriesCopies | src/pages/ChecklistsPage.tsx:115-144 | when the store accepts every call, the loop builds under the new checklist a tree of the same shape as the categories it copies, and adds one category per source category and one item per source item |
| ChecklistTree.OtherTreeKept | src/pages/ChecklistsPage.tsx:115-144 | the copy loop leaves the tree of every other existing checklist as it was |
| ChecklistTree.CloneCopiesTree | src/pages/ChecklistsPage.tsx:91-150 | when every insert is accepted, a clone adds one checklist "name (Copy)" with the source's description under a fresh id. Its tree has the source tree's shape (categories, names, positions, items, flags, in order). The source tree is unchanged. Exactly C categories and I items are added, and other tables are unchanged |
| ChecklistTree.CopyCategoryAppends | src/pages/ChecklistsPage.tsx:116-141 | whatever the store refuses, one iteration appends at most one category, under the new checklist with the source's name and position, and only appends items |
| ChecklistTree.CopyCategoriesOnlyAppends | src/pages/ChecklistsPage.tsx:115-144 | whatever the store refuses, the loop only appends categories and items; each appended category lies under the new checklist and copies a source category's name and position |
| ChecklistTree.CopyCategorySkipsRefused | src/pages/ChecklistsPage.tsx:126 | when a category insert is refused, its items are skipped and the loop goes on |
| ChecklistTree.CloneOnlyAppends | src/pages/ChecklistsPage.tsx:91-150 | a clone never updates or deletes a row and adds at most one checklist; an id that names no checklist changes nothing |
| ChecklistsPage.Toggled | src/pages/ChecklistsPage.tsx:206-214 | a click on a category flips exactly its own membership of the expanded set |
| ChecklistsPage.ToggledTwice | src/pages/ChecklistsPage.tsx:206-214 | two clicks on the same category restore the set |
| ChecklistsPage.ToggleItemTwice | src/pages/ChecklistsPage.tsx:196-202 | toggling an item's active flag twice restores the store |
| ChecklistsPage.SortedCountMatches | src/pages/ChecklistsPage.tsx:177-178 | the page's position-sorted copy of the items holds as many items of a category as the table does |
| ChecklistsPage.InsertOneItem | src/pages/ChecklistsPage.tsx:179-185 | an accepted single-item insert appends one item, with the draft's category and position, to that category's items |
| ChecklistsPage.AddItemKeepsDense | src/pages/ChecklistsPage.tsx:173-187 | while a category's positions are 0..n-1 with no gaps, adding an item at n keeps them so |
| ChecklistsPage.DeleteFirstOfTwo | src/pages/ChecklistsPage.tsx:189-194 | deleting the first of two items of a category leaves only the second |
| ChecklistsPage.AddAtTakenPosition | src/pages/ChecklistsPage.tsx:177-182 | an item added at a position already taken breaks the gap-free numbering |
| ChecklistsPage.DeleteThenAddCanRepeatPosition | src/pages/ChecklistsPage.tsx:173-194 | positions come from a count: after a delete, a new item can get a position another item already has |
| ChecklistsPage.DeleteItemKeepsInsert | src/pages/ChecklistsPage.tsx:191 | deleting an item never changes whether a later item insert is accepted |
| ChecklistsPage.EditForm | src/pages/ChecklistsPage.tsx:251-255 | the edit form shows a missing description as "" |
| ChecklistsPage.EditUnchangedKeepsChecklist | src/pages/ChecklistsPage.tsx:62-81 | saving the edit form unchanged only moves `updated_at`, except that a missing description is written back as "" |
| ChecklistsPage.ChecklistsPage.constructor | src/pages/ChecklistsPage.tsx:7-21 | a new page has empty lists, no selection, no expanded category, a closed blank form, and the loaded list |
| ChecklistsPage.ChecklistsPage.LoadDetails | src/pages/ChecklistsPage.tsx:45-60 | the page shows the checklist's categories and all items, each sorted by position and a permutation of the table |
| ChecklistsPage.ChecklistsPage.Select | src/pages/ChecklistsPage.tsx:23-27 | selecting a different, non-empty id loads its details; reselecting the same id loads nothing |
| ChecklistsPage.ChecklistsPage.Reload | src/pages/ChecklistsPage.tsx:25 | with a selection, the details shown are reloaded from the store |
| ChecklistsPage.ChecklistsPage.LoadChecklists | src/pages/ChecklistsPage.tsx:29-43 | the list is the table sorted newest first; with no selection the first checklist is selected and its details shown, and an existing selection is kept |
| ChecklistsPage.ChecklistsPage.OpenEdit | src/pages/ChecklistsPage.tsx:251-256 | the form opens on the checklist being edited |
| ChecklistsPage.ChecklistsPage.OpenCreate | src/pages/ChecklistsPage.tsx:227-229 | the form opens blank, in create mode |
| ChecklistsPage.ChecklistsPage.Save | src/pages/ChecklistsPage.tsx:65-75 | an edit updates the edited checklist; a create inserts one; the description is saved as entered, "" included |
| ChecklistsPage.ChecklistsPage.SubmitChecklist | src/pages/ChecklistsPage.tsx:62-81 | the store changes as `Save` says, the form is closed and blank, and the list is reloaded newest first |
| ChecklistsPage.ChecklistsPage.DeleteChecklist | src/pages/ChecklistsPage.tsx:83-89 | only when confirmed, the checklist is deleted and the reloaded list no longer contains it. A previous selection is cleared; with none, the first checklist is selected |
| ChecklistsPage.ChecklistsPage.AddCategory | src/pages/ChecklistsPage.tsx:152-164 | with a selection and a non-empty name, one category is inserted at position = number of shown categories and the details are reloaded; otherwise nothing changes |
| ChecklistsPage.ChecklistsPage.AddItem | src/pages/ChecklistsPage.tsx:173-187 | with a non-empty name, one active item is inserted at position = number of items of that category; otherwise nothing changes |
| ChecklistsPage.ChecklistsPage.DeleteCategory | src/pages/ChecklistsPage.tsx:166-171 | only when confirmed, the category is deleted and the details reloaded |
| ChecklistsPage.ChecklistsPage.DeleteItem | src/pages/ChecklistsPage.tsx:189-194 | only when confirmed, the item is deleted and the details reloaded |
| ChecklistsPage.ChecklistsPage.ToggleItemActive | src/pages/ChecklistsPage.tsx:196-202 | the item's flag is set to the negation of the shown flag and the details are reloaded |
| ChecklistsPage.ChecklistsPage.ToggleCategory | src/pages/ChecklistsPage.tsx:206-214 | the expanded set becomes `Toggled` of the old one |
| ChecklistsPage.ChecklistsPage.CopyOneCategory | src/pages/ChecklistsPage.tsx:116-141 | one iteration of the clone loop performs exactly `CopyCategory`'s calls |
| ChecklistsPage.ChecklistsPage.CopyCategoriesInto | src/pages/ChecklistsPage.tsx:115-144 | the loop performs exactly `CopyCategories`'s calls, in order |
| ChecklistsPage.ChecklistsPage.CloneChecklist | src/pages/ChecklistsPage.tsx:91-150 | the store becomes `Clone` of the old store, about which the clone theorems hold; a found source reloads the list, and a missing one changes nothing on the page |
| LogsPage.SatisfiesSnoc | src/pages/LogsPage.tsx:27-38 | adding one `.eq` condition to a query narrows it by exactly that condition |
| LogsPage.BuildQuery | src/pages/LogsPage.tsx:25-38 | the query has limit 100, and a log satisfies its conditions exactly when it equals every non-empty filter field |
| LogsPage.QueryAgrees | src/pages/LogsPage.tsx:25-38 | a query built from the form returns exactly the newest hundred logs the form describes |
| LogsPage.FilteredLogsSound | src/pages/LogsPage.tsx:25-38 | at most 100 logs are listed; each is a stored log matching every non-empty filter; they are newest first |
| LogsPage.FilteredLogsNewest | src/pages/LogsPage.tsx:25 | no matching log left out is newer than a listed one; with at most 100 matches all are listed, and with more exactly 100 are |
| LogsPage.NoFiltersListsNewest | src/pages/LogsPage.tsx:63-70 | with all filters empty, the list is the newest hundred logs, unfiltered |
| LogsPage.JoinLogs | src/pages/LogsPage.tsx:46-52 | the join keeps each log in place and adds its company's name, or "" |
| LogsPage.JoinLogsNames | src/pages/LogsPage.tsx:47-50 | with distinct company ids, the name is the matching company's, or "" when none matches |
| LogsPage.CallIdLabel | src/pages/LogsPage.tsx:188 | an absent or empty call id shows as "-", any other as its first min(8, length) characters |
| LogsPage.LogsPage.constructor | src/pages/LogsPage.tsx:10-20 | the page starts with empty filters and shows the newest hundred logs |
| LogsPage.LogsPage.LoadData | src/pages/LogsPage.tsx:22-61 | after loading, the page lists the filtered logs joined with company names, and the company list |
| LogsPage.LogsPage.SetFilters | src/pages/LogsPage.tsx:18-20 | changing the filters reloads the list for the new filters |
| LogsPage.LogsPage.ResetFilters | src/pages/LogsPage.tsx:63-70 | all four filters become "" and the unfiltered list is shown |
| UsersPage.JoinUsers | src/pages/UsersPage.tsx:35-43 | the join keeps each user in place and adds the company's and team's names, or "" |
| UsersPage.JoinUsersNames | src/pages/UsersPage.tsx:36-41 | with distinct ids, the names are those of the matching company and team; no team gives "" |
| UsersPage.EditForm | src/pages/UsersPage.tsx:107-118 | the edit form shows a missing team as "" and a present team as its id |
| UsersPage.ChangesOf | src/pages/UsersPage.tsx:59-66 | the saved team is null exactly when the form's team is "" |
| UsersPage.NewUser | src/pages/UsersPage.tsx:77-86 | a created user carries the signed-up id, an empty password hash and the normalised team |
| UsersPage.EditUnchangedKeepsUser | src/pages/UsersPage.tsx:53-94 | saving the edit form unchanged only moves `updated_at` |
| UsersPage.TeamsOf | src/pages/UsersPage.tsx:126 | the team choices are exactly the teams of the selected company |
| UsersPage.SavedTeamInCompany | src/pages/UsersPage.tsx:126 | saving a form whose team was offered for its company gives the user no team or a team of that company |
| UsersPage.NextUserStatus | src/pages/UsersPage.tsx:100 | the toggle yields the other status |
| UsersPage.NextUserStatusTwice | src/pages/UsersPage.tsx:100 | toggling twice restores the status |
| UsersPage.UsersPage.constructor | src/pages/UsersPage.tsx:7-24 | the page starts with a closed blank form and shows the joined users |
| UsersPage.UsersPage.LoadData | src/pages/UsersPage.tsx:26-51 | the page shows the users newest first, joined with company and team names |
| UsersPage.UsersPage.OpenEdit | src/pages/UsersPage.tsx:107-118 | the form opens on the user being edited |
| UsersPage.UsersPage.OpenCreate | src/pages/UsersPage.tsx:120-124 | the form opens blank, with role manager and status active |
| UsersPage.UsersPage.SelectCompany | src/pages/UsersPage.tsx:248 | changing the company clears the team |
| UsersPage.UsersPage.SelectTeam | src/pages/UsersPage.tsx:263-272 | only "" or a team of the selected company can be chosen |
| UsersPage.UsersPage.Save | src/pages/UsersPage.tsx:56-87 | an edit updates the user; a create inserts a row only when sign-up returned a user, under that user's id |
| UsersPage.UsersPage.Submit | src/pages/UsersPage.tsx:53-94 | the store changes as `Save` says, the form is closed and blank, and the page is reloaded |
| UsersPage.UsersPage.ToggleStatus | src/pages/UsersPage.tsx:96-105 | the user's status becomes the other status and the page is reloaded |
| CompaniesPage.JoinCompanies | src/pages/CompaniesPage.tsx:31-46 | the join keeps each company in place and adds its user count and active checklist's name |
| CompaniesPage.JoinCompaniesFacts | src/pages/CompaniesPage.tsx:33-43 | the count is 0 exactly when no user has the company, and is at most the number of users; the name is the matching checklist's, or "" |
| CompaniesPage.CountAfterInsertUser | src/pages/CompaniesPage.tsx:33-36 | inserting a user raises exactly its own company's count, by one |
| CompaniesPage.EditForm | src/pages/CompaniesPage.tsx:93-100 | missing description and checklist show as "", present ones as themselves |
| CompaniesPage.ChangesOf | src/pages/CompaniesPage.tsx:63-73 | the checklist is null exactly when the form's is ""; the description is saved as entered |
| CompaniesPage.EditUnchangedKeepsCompany | src/pages/CompaniesPage.tsx:57-102 | saving the edit form unchanged only moves `updated_at`, except that a missing description is written back as "" |
| CompaniesPage.NextCompanyStatus | src/pages/CompaniesPage.tsx:86 | the toggle yields the other status |
| CompaniesPage.NextCompanyStatusTwice | src/pages/CompaniesPage.tsx:86 | toggling twice restores the status |
| CompaniesPage.CompaniesPage.constructor | src/pages/CompaniesPage.tsx:7-21 | the page starts with a closed blank form and shows the joined companies |
| CompaniesPage.CompaniesPage.LoadData | src/pages/CompaniesPage.tsx:23-55 | the page shows the companies newest first, joined with user counts and checklist names |
| CompaniesPage.CompaniesPage.OpenEdit | src/pages/CompaniesPage.tsx:93-102 | the form opens on the company being edited |
| CompaniesPage.CompaniesPage.OpenCreate | src/pages/CompaniesPage.tsx:104-108 | the form opens blank, with status active |
| CompaniesPage.CompaniesPage.Save | src/pages/CompaniesPage.tsx:60-74 | an edit updates the edited company; a create inserts one; both write the normalised form |
| CompaniesPage.CompaniesPage.Submit | src/pages/CompaniesPage.tsx:57-80 | the store changes as `Save` says, the form is closed and blank, and the page is reloaded |
| CompaniesPage.CompaniesPage.ToggleStatus | src/pages/CompaniesPage.tsx:82-91 | the company's status becomes the other status and the page is reloaded |
| TeamsPage.JoinTeams | src/pages/TeamsPage.tsx:29-43 | the join keeps each team in place and adds its company's name and its user count |
| TeamsPage.JoinTeamsFacts | src/pages/TeamsPage.tsx:31-40 | the name is the matching company's; the count is 0 exactly when no user has the team |
| TeamsPage.DeletedTeamNotListed | src/pages/TeamsPage.tsx:75-79 | after a delete, the reloaded list holds exactly the other teams |
| TeamsPage.EditUnchangedKeepsTeam | src/pages/TeamsPage.tsx:82-89 | saving the edit form unchanged only moves `updated_at` |
| TeamsPage.TeamsPage.constructor | src/pages/TeamsPage.tsx:7-19 | the page starts with a closed blank form and shows the joined teams |
| TeamsPage.TeamsPage.LoadData | src/pages/TeamsPage.tsx:21-52 | the page shows the teams newest first, joined with company names and user counts |
| TeamsPage.TeamsPage.OpenEdit | src/pages/TeamsPage.tsx:82-89 | the form opens on the team being edited |
| TeamsPage.TeamsPage.OpenCreate | src/pages/TeamsPage.tsx:91-95 | the form opens blank |
| TeamsPage.TeamsPage.Save | src/pages/TeamsPage.tsx:57-67 | an edit updates the edited team's name and company; a create inserts one |
| TeamsPage.TeamsPage.Submit | src/pages/TeamsPage.tsx:54-73 | the store changes as `Save` says, the form is reset to an empty name and company, and the page is reloaded |
| TeamsPage.TeamsPage.DeleteTeam | src/pages/TeamsPage.tsx:75-80 | only when confirmed, the team is deleted and the page reloaded; otherwise nothing changes |
| PromptsPage.AddToBucket | src/pages/PromptsPage.tsx:83 | a push appends the prompt to its own type's list and leaves the others alone |
| PromptsPage.GroupPrompts | src/pages/PromptsPage.tsx:76-84 | each list holds exactly the prompts of its type, in input order |
| PromptsPage.GroupStep | src/pages/PromptsPage.tsx:82-84 | one more pushed prompt keeps every list equal to the filter of the prompts seen so far |
| PromptsPage.GroupsPartition | src/pages/PromptsPage.tsx:76-84 | the three lists together hold every prompt exactly once |
| PromptsPage.GroupFacts | src/pages/PromptsPage.tsx:82-84 | a list holds only its type, keeps input order, and stays newest first |
| PromptsPage.SectionOrderCoversTypes | src/pages/PromptsPage.tsx:104 | the sections are summary, recommendations, checklist: each type once |
| PromptsPage.EditUnchangedKeepsPrompt | src/pages/PromptsPage.tsx:58-66 | the edit form copies exactly the five editable fields: saving it unchanged only moves `updated_at` |
| PromptsPage.PromptsPage.constructor | src/pages/PromptsPage.tsx:7-21 | the page starts with a closed form of type summary, active, and shows the grouped prompts |
| PromptsPage.PromptsPage.LoadPrompts | src/pages/PromptsPage.tsx:23-35 | the prompts are shown newest first, and each section holds that type's prompts |
| PromptsPage.PromptsPage.OpenEdit | src/pages/PromptsPage.tsx:58-68 | the form opens on the prompt being edited |
| PromptsPage.PromptsPage.OpenCreate | src/pages/PromptsPage.tsx:70-74 | the form opens blank, with type summary and active |
| PromptsPage.PromptsPage.Save | src/pages/PromptsPage.tsx:40-50 | an edit updates the edited prompt; a create inserts one |
| PromptsPage.PromptsPage.Submit | src/pages/PromptsPage.tsx:37-56 | the store changes as `Save` says, the form is closed and blank, and the prompts are reloaded |
| PromptsPage.ShownSections | src/pages/PromptsPage.tsx:76-84 | every shown section is newest first, and together they hold each stored prompt once |
| IntegrationsPage.SingleRow | src/pages/IntegrationsPage.tsx:26-31 | `.single()` yields a row exactly when the table holds one row |
| IntegrationsPage.FormOf | src/pages/IntegrationsPage.tsx:33-40 | the loaded form shows null as "", and an empty provider as "openai" |
| IntegrationsPage.ChangesOf | src/pages/IntegrationsPage.tsx:52-59 | save writes null for each empty optional field and passes the provider through |
| IntegrationsPage.SaveThenLoad | src/pages/IntegrationsPage.tsx:33-59 | loading what a form saved gives the form back when its provider is non-empty |
| IntegrationsPage.LoadThenSave | src/pages/IntegrationsPage.tsx:33-59 | saving a loaded form gives back the row when it has a provider and no stored "" |
| IntegrationsPage.SubmitRoundTrip | src/pages/IntegrationsPage.tsx:45-66 | saving into the single row and reading it back shows the submitted form |
| IntegrationsPage.IntegrationsPage.constructor | src/pages/IntegrationsPage.tsx:7-22 | the page loads the single settings row into the form, or keeps the defaults |
| IntegrationsPage.IntegrationsPage.LoadSettings | src/pages/IntegrationsPage.tsx:24-43 | with exactly one row, the settings and form are that row's; otherwise they are kept |
| IntegrationsPage.IntegrationsPage.Edit | src/pages/IntegrationsPage.tsx:11-18 | typing replaces the form |
| IntegrationsPage.IntegrationsPage.HandleSubmit | src/pages/IntegrationsPage.tsx:45-66 | only the row with the loaded id is updated from the normalised form; then saving is false, saved is true, and the form is reloaded from a single row, or kept as it was when the table does not hold exactly one |
| IntegrationsPage.IntegrationsPage.HideSavedNotice | src/pages/IntegrationsPage.tsx:64 | the saved notice is cleared |

## Left out

- The record-store client library is replaced by `Tables` and `RecordStore`. Reads, updates and deletes never fail. Only inserts can be refused, through the `rejects` set.
- A failed read leaves the page state unchanged in the source. In the model a read always returns the store's rows, so that path is not modelled.
- Sign-up is not modelled. Its outcome is the parameter `signedUp` of `UsersPage.UsersPage.Save` and `Submit`. The temporary password from `Math.random` is not modelled.
- `Promise.all` is not modelled as concurrency: its reads run one after another. Nothing changes the store between them.
- The timer that hides the saved notice is the separate method `HideSavedNotice`.
- Dates are integers: `created_at` and `updated_at` are ordered keys, and `now` is a parameter.
- `confirm` and `prompt` are not modelled as dialogs. They are the inputs `confirmed: bool` and `name: Option<string>`.
- Rendering is not modelled: markup, styles, loading flags and the open/closed state of modals beyond `showModal`. `src/components/Layout.tsx` and `src/App.tsx` are not part of this model.
- Deleting a checklist, category or team does not delete the rows under it. Whether the store cascades is store policy, so the model removes only the named row.
- The companies, teams and checklists lists are ordered by name. The model keeps them in table order because they are only used for lookups by id; `Lookups.NameOfFound` shows that order does not matter with distinct ids.
- PromptsPage.PromptsPage.LoadPrompts: orders by creation time only, not first by type. Grouping by type makes the first key invisible, and each section is newest first either way.
- The fallback `count || 0` is not modelled because the count query always returns a count here. `Lookups.CountWhere` is that count.
- ChecklistsPage.ChecklistsPage.Reload: with no checklist selected, the source reads the details of a null id. The model leaves the shown details unchanged.
- The store keeps each table as a sequence rather than a map keyed by id. Uniqueness of ids is the freshness invariant `Tables.Fresh` rather than a map's keys.
- The enumerations `CallStatus` and `ChecklistValue` are not modelled because no page of the core uses them.
- A partially failed clone is not rolled back. Rollback would be an improved design, not what the code does; the model follows the code: a refused category insert skips that category's items and the loop continues (`ChecklistTree.CopyCategorySkipsRefused`).
- Descriptions of companies and checklists are written exactly as the form holds them, so an empty description is stored as "" rather than null. Only the optional foreign keys are normalised to null.
