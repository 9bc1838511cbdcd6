/** Record types and closed enumerations of the admin console's database
    (src/types/database.ts). Enumerations are stored as strings by the
    backend, so each one comes with its wire name and a parser. */
module Types {

  datatype Option<T> = None | Some(value: T)

  /** Identifiers are opaque strings assigned by the store. */
  type Id = string

  /** `created_at` / `updated_at` are treated as opaque ordered keys. */
  type Timestamp = int

  datatype UserRole = Manager | Lead | Admin
  datatype UserStatus = Active | Blocked
  datatype CompanyStatus = Active | Inactive
  datatype PromptType = SummaryPrompt | RecommendationsPrompt | ChecklistPrompt
  datatype LogStatus = Ok | Error

  datatype Company = Company(
    id: Id,
    name: string,
    description: Option<string>,
    activeChecklistId: Option<Id>,
    status: CompanyStatus,
    createdAt: Timestamp,
    updatedAt: Timestamp)

  datatype Team = Team(
    id: Id,
    companyId: Id,
    name: string,
    createdAt: Timestamp,
    updatedAt: Timestamp)

  datatype User = User(
    id: Id,
    companyId: Id,
    teamId: Option<Id>,
    email: string,
    passwordHash: string,
    fullName: string,
    role: UserRole,
    status: UserStatus,
    createdAt: Timestamp,
    updatedAt: Timestamp)

  datatype Checklist = Checklist(
    id: Id,
    name: string,
    description: Option<string>,
    createdAt: Timestamp,
    updatedAt: Timestamp)

  /** A category belongs to exactly one checklist and is ordered by `position`. */
  datatype ChecklistCategory = ChecklistCategory(
    id: Id,
    checklistId: Id,
    name: string,
    position: int)

  /** An item belongs to exactly one category, is ordered by `position`
      and is switched on or off by `isActive`. */
  datatype ChecklistItem = ChecklistItem(
    id: Id,
    categoryId: Id,
    name: string,
    description: Option<string>,
    position: int,
    isActive: bool)

  /** The insert payload of a checklist item: every column but the id. */
  datatype ItemDraft = ItemDraft(
    categoryId: Id,
    name: string,
    description: Option<string>,
    position: int,
    isActive: bool)

  datatype LlmPrompt = LlmPrompt(
    id: Id,
    promptType: PromptType,
    name: string,
    model: string,
    promptText: string,
    isActive: bool,
    createdAt: Timestamp,
    updatedAt: Timestamp)

  datatype IntegrationSettings = IntegrationSettings(
    id: Id,
    assemblyaiApiKey: Option<string>,
    assemblyaiWebhookSecret: Option<string>,
    llmProvider: string,
    llmApiKey: Option<string>,
    llmBaseUrl: Option<string>,
    llmDefaultModel: Option<string>)

  datatype ProcessingLog = ProcessingLog(
    id: Id,
    callId: Option<Id>,
    companyId: Option<Id>,
    userId: Option<Id>,
    stage: string,
    status: LogStatus,
    message: Option<string>,
    createdAt: Timestamp)

  // Wire names of the enumerations and their parsers. Each parser accepts
  // exactly the names of the enumeration's values, so each type is closed.

  function UserRoleName(r: UserRole): string {
    match r
    case Manager => "manager"
    case Lead => "lead"
    case Admin => "admin"
  }

  function ParseUserRole(s: string): (r: Option<UserRole>)
    ensures r.Some? <==> s == "manager" || s == "lead" || s == "admin"
    ensures r.Some? ==> UserRoleName(r.value) == s
  {
    if s == "manager" then Some(Manager)
    else if s == "lead" then Some(Lead)
    else if s == "admin" then Some(Admin)
    else None
  }

  function UserStatusName(s: UserStatus): string {
    match s
    case Active => "active"
    case Blocked => "blocked"
  }

  function ParseUserStatus(s: string): (r: Option<UserStatus>)
    ensures r.Some? <==> s == "active" || s == "blocked"
    ensures r.Some? ==> UserStatusName(r.value) == s
  {
    if s == "active" then Some(UserStatus.Active)
    else if s == "blocked" then Some(Blocked)
    else None
  }

  function CompanyStatusName(s: CompanyStatus): string {
    match s
    case Active => "active"
    case Inactive => "inactive"
  }

  function ParseCompanyStatus(s: string): (r: Option<CompanyStatus>)
    ensures r.Some? <==> s == "active" || s == "inactive"
    ensures r.Some? ==> CompanyStatusName(r.value) == s
  {
    if s == "active" then Some(CompanyStatus.Active)
    else if s == "inactive" then Some(Inactive)
    else None
  }

  function PromptTypeName(t: PromptType): string {
    match t
    case SummaryPrompt => "summary"
    case RecommendationsPrompt => "recommendations"
    case ChecklistPrompt => "checklist"
  }

  function ParsePromptType(s: string): (r: Option<PromptType>)
    ensures r.Some? <==> s == "summary" || s == "recommendations" || s == "checklist"
    ensures r.Some? ==> PromptTypeName(r.value) == s
  {
    if s == "summary" then Some(SummaryPrompt)
    else if s == "recommendations" then Some(RecommendationsPrompt)
    else if s == "checklist" then Some(ChecklistPrompt)
    else None
  }

  function LogStatusName(s: LogStatus): string {
    match s
    case Ok => "ok"
    case Error => "error"
  }

  function ParseLogStatus(s: string): (r: Option<LogStatus>)
    ensures r.Some? <==> s == "ok" || s == "error"
    ensures r.Some? ==> LogStatusName(r.value) == s
  {
    if s == "ok" then Some(Ok)
    else if s == "error" then Some(Error)
    else None
  }

  /** Every enumeration value survives a round trip through its wire name. */
  lemma EnumNamesRoundTrip(r: UserRole, u: UserStatus, c: CompanyStatus, t: PromptType, l: LogStatus)
    ensures ParseUserRole(UserRoleName(r)) == Some(r)
    ensures ParseUserStatus(UserStatusName(u)) == Some(u)
    ensures ParseCompanyStatus(CompanyStatusName(c)) == Some(c)
    ensures ParsePromptType(PromptTypeName(t)) == Some(t)
    ensures ParseLogStatus(LogStatusName(l)) == Some(l)
  {
  }

  // The `x || null` and `x || ''` conversions the forms apply to optional columns.

  /** A form string as written to an optional column: empty becomes null. */
  function EmptyToNull(s: string): (r: Option<string>)
    ensures r.None? <==> s == ""
    ensures r.Some? ==> r.value == s
  {
    if s == "" then None else Some(s)
  }

  /** An optional column as shown in a form: null becomes empty. */
  function NullToEmpty(o: Option<string>): (r: string)
    ensures o.None? ==> r == ""
    ensures o.Some? ==> r == o.value
  {
    match o
    case None => ""
    case Some(s) => s
  }

  /** Saving then loading a form string gives it back; loading then saving
      an optional column gives it back exactly when it does not hold "". */
  lemma NullRoundTrip(s: string, o: Option<string>)
    ensures NullToEmpty(EmptyToNull(s)) == s
    ensures EmptyToNull(NullToEmpty(o)) == o <==> o != Some("")
  {
  }
}
