/** LLM prompt administration (src/pages/PromptsPage.tsx): prompts loaded
    newest first and grouped into one section per prompt type, and the
    create/edit form. */
module PromptsPage {
  import opened Types
  import opened Seqs
  import opened Tables
  import opened Store

  /** Prompts are listed newest first. */
  function NewestPromptFirst(p: LlmPrompt): int { -p.createdAt }

  function OfType(t: PromptType): LlmPrompt -> bool {
    (p: LlmPrompt) => p.promptType == t
  }

  /** One list of prompts per prompt type. */
  datatype PromptGroups = PromptGroups(
    summary: seq<LlmPrompt>,
    recommendations: seq<LlmPrompt>,
    checklist: seq<LlmPrompt>)

  function Bucket(g: PromptGroups, t: PromptType): seq<LlmPrompt> {
    match t
    case SummaryPrompt => g.summary
    case RecommendationsPrompt => g.recommendations
    case ChecklistPrompt => g.checklist
  }

  /** Appends `p` to the list of its own type. */
  function AddToBucket(g: PromptGroups, p: LlmPrompt): (r: PromptGroups)
    ensures Bucket(r, p.promptType) == Bucket(g, p.promptType) + [p]
    ensures forall t :: t != p.promptType ==> Bucket(r, t) == Bucket(g, t)
  {
    match p.promptType
    case SummaryPrompt => g.(summary := g.summary + [p])
    case RecommendationsPrompt => g.(recommendations := g.recommendations + [p])
    case ChecklistPrompt => g.(checklist := g.checklist + [p])
  }

  /** Walks the prompts once and pushes each onto the list of its type:
      every list holds exactly the prompts of its type, in their order. */
  method GroupPrompts(prompts: seq<LlmPrompt>) returns (g: PromptGroups)
    ensures forall t :: Bucket(g, t) == Filter(prompts, OfType(t))
  {
    g := PromptGroups([], [], []);
    for i := 0 to |prompts|
      invariant forall t :: Bucket(g, t) == Filter(prompts[..i], OfType(t))
    {
      GroupStep(prompts, i, g);
      g := AddToBucket(g, prompts[i]);
    }
    assert prompts[..|prompts|] == prompts;
  }

  lemma GroupStep(prompts: seq<LlmPrompt>, i: nat, g: PromptGroups)
    requires i < |prompts|
    requires forall t :: Bucket(g, t) == Filter(prompts[..i], OfType(t))
    ensures forall t :: Bucket(AddToBucket(g, prompts[i]), t) == Filter(prompts[..i + 1], OfType(t))
  {
    var p := prompts[i];
    assert prompts[..i + 1] == prompts[..i] + [p];
    forall t ensures Bucket(AddToBucket(g, p), t) == Filter(prompts[..i + 1], OfType(t)) {
      FilterAppend(prompts[..i], [p], OfType(t));
    }
  }

  /** The three lists together hold every prompt exactly once. */
  lemma GroupsPartition(prompts: seq<LlmPrompt>)
    ensures multiset(Filter(prompts, OfType(SummaryPrompt))) + multiset(Filter(prompts, OfType(RecommendationsPrompt)))
            + multiset(Filter(prompts, OfType(ChecklistPrompt))) == multiset(prompts)
  {
    FilterPartition3(prompts, OfType(SummaryPrompt), OfType(RecommendationsPrompt), OfType(ChecklistPrompt));
  }

  /** Each list holds only prompts of its type, keeps the loaded order and,
      when the prompts were loaded newest first, is newest first itself. */
  lemma GroupFacts(prompts: seq<LlmPrompt>, t: PromptType)
    ensures forall p :: p in Filter(prompts, OfType(t)) ==> p.promptType == t
    ensures IsSubsequence(Filter(prompts, OfType(t)), prompts)
    ensures SortedBy(prompts, NewestPromptFirst) ==> SortedBy(Filter(prompts, OfType(t)), NewestPromptFirst)
  {
    FilterIsSubsequence(prompts, OfType(t));
    if SortedBy(prompts, NewestPromptFirst) {
      FilterKeepsSorted(prompts, OfType(t), NewestPromptFirst);
    }
  }

  /** The sections are shown in this order. */
  const SectionOrder: seq<PromptType> := [SummaryPrompt, RecommendationsPrompt, ChecklistPrompt]

  /** Every prompt type has exactly one section. */
  lemma SectionOrderCoversTypes()
    ensures forall t :: t in SectionOrder
    ensures forall i, j :: 0 <= i < j < |SectionOrder| ==> SectionOrder[i] != SectionOrder[j]
  {
    forall t ensures t in SectionOrder {
      match t
      case SummaryPrompt => assert SectionOrder[0] == t;
      case RecommendationsPrompt => assert SectionOrder[1] == t;
      case ChecklistPrompt => assert SectionOrder[2] == t;
    }
  }

  // ------------------------------------------------------------- the form

  datatype PromptForm = PromptForm(
    promptType: PromptType,
    name: string,
    model: string,
    promptText: string,
    isActive: bool)

  /** A new prompt is a summary prompt, switched on. */
  const BlankPromptForm := PromptForm(SummaryPrompt, "", "", "", true)

  function EditForm(p: LlmPrompt): PromptForm {
    PromptForm(p.promptType, p.name, p.model, p.promptText, p.isActive)
  }

  function ChangesOf(f: PromptForm): PromptChanges {
    PromptChanges(f.promptType, f.name, f.model, f.promptText, f.isActive)
  }

  /** Saving the edit dialog unchanged rewrites the prompt with its own
      values: only `updated_at` moves. */
  lemma EditUnchangedKeepsPrompt(db: Db, k: nat, now: Timestamp)
    requires k < |db.prompts|
    ensures var p := db.prompts[k];
      UpdatePrompt(db, p.id, ChangesOf(EditForm(p)), now).prompts[k] == p.(updatedAt := now)
  {
  }

  // ------------------------------------------------------------- the page

  class PromptsPage {
    const store: RecordStore
    var prompts: seq<LlmPrompt>
    var groups: PromptGroups
    var showModal: bool
    var editing: Option<LlmPrompt>
    var form: PromptForm

    /** The page shows the stored prompts newest first, one section per type. */
    ghost predicate Shows()
      reads this, store
    {
      && prompts == SortBy(store.db.prompts, NewestPromptFirst)
      && forall t :: Bucket(groups, t) == Filter(prompts, OfType(t))
    }

    constructor (store: RecordStore)
      ensures this.store == store && Shows()
      ensures !showModal && editing.None? && form == BlankPromptForm
    {
      this.store := store;
      showModal := false;
      editing := None;
      form := BlankPromptForm;
      new;
      LoadPrompts();
    }

    method LoadPrompts()
      modifies this`prompts, this`groups
      ensures Shows()
    {
      prompts := SortBy(store.db.prompts, NewestPromptFirst);
      groups := GroupPrompts(prompts);
    }

    method OpenEdit(p: LlmPrompt)
      modifies this`editing, this`form, this`showModal
      ensures editing == Some(p) && form == EditForm(p) && showModal
    {
      editing := Some(p);
      form := EditForm(p);
      showModal := true;
    }

    method OpenCreate()
      modifies this`editing, this`form, this`showModal
      ensures editing.None? && form == BlankPromptForm && showModal
    {
      editing := None;
      form := BlankPromptForm;
      showModal := true;
    }

    /** Writes the form to the store: an update of the edited prompt, or an insert. */
    method Save(now: Timestamp)
      requires store.Valid()
      modifies store
      ensures store.Valid()
      ensures editing.Some? ==> store.db == UpdatePrompt(old(store.db), editing.value.id, ChangesOf(form), now)
      ensures editing.None? ==> store.db == Tables.InsertPrompt(old(store.db), ChangesOf(form), now).0
    {
      if editing.Some? {
        store.UpdatePrompt(editing.value.id, ChangesOf(form), now);
      } else {
        var _ := store.InsertPrompt(ChangesOf(form), now);
      }
    }

    /** Saves the form, closes the dialog, clears the form and reloads. */
    method Submit(now: Timestamp)
      requires store.Valid()
      modifies this`prompts, this`groups, this`showModal, this`editing, this`form, store
      ensures store.Valid()
      ensures old(editing).Some? ==>
        store.db == UpdatePrompt(old(store.db), old(editing).value.id, ChangesOf(old(form)), now)
      ensures old(editing).None? ==> store.db == Tables.InsertPrompt(old(store.db), ChangesOf(old(form)), now).0
      ensures !showModal && editing.None? && form == BlankPromptForm && Shows()
    {
      Save(now);
      showModal := false;
      editing := None;
      form := BlankPromptForm;
      LoadPrompts();
    }
  }

  /** On a loaded page every section is newest first and the sections
      together hold every stored prompt once. */
  lemma ShownSections(db: Db, prompts: seq<LlmPrompt>, groups: PromptGroups)
    requires prompts == SortBy(db.prompts, NewestPromptFirst)
    requires forall t :: Bucket(groups, t) == Filter(prompts, OfType(t))
    ensures forall t :: SortedBy(Bucket(groups, t), NewestPromptFirst)
    ensures multiset(groups.summary) + multiset(groups.recommendations) + multiset(groups.checklist) == multiset(db.prompts)
  {
    SortByIsSorted(db.prompts, NewestPromptFirst);
    forall t ensures SortedBy(Bucket(groups, t), NewestPromptFirst) {
      GroupFacts(prompts, t);
    }
    GroupsPartition(prompts);
    assert groups.summary == Bucket(groups, SummaryPrompt);
    assert groups.recommendations == Bucket(groups, RecommendationsPrompt);
    assert groups.checklist == Bucket(groups, ChecklistPrompt);
  }
}
