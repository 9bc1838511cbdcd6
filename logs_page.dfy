/** The processing-log viewer (src/pages/LogsPage.tsx): a filter form whose
    non-empty fields become equality conditions on the log query, the newest
    hundred matching logs, and each log's company name looked up in the
    company list. */
module LogsPage {
  import opened Types
  import opened Seqs
  import opened Lookups
  import opened Store

  /** The query's `limit`. */
  const PageSize: nat := 100

  /** The filter form; "" means "any". */
  datatype LogFilters = LogFilters(companyId: string, callId: string, stage: string, status: string)

  const NoFilters := LogFilters("", "", "", "")

  // ------------------------------------------------------------- the query

  datatype Column = CompanyIdColumn | CallIdColumn | StageColumn | StatusColumn

  /** `.eq(column, value)`. */
  datatype Condition = Eq(column: Column, value: string)

  /** A query on `processing_logs`, always ordered newest first. */
  datatype LogQuery = LogQuery(conditions: seq<Condition>, limit: nat)

  /** The column's value in a row; a null column holds no value. */
  function ColumnValue(l: ProcessingLog, c: Column): Option<string> {
    match c
    case CompanyIdColumn => l.companyId
    case CallIdColumn => l.callId
    case StageColumn => Some(l.stage)
    case StatusColumn => Some(LogStatusName(l.status))
  }

  /** SQL equality: a null column equals nothing. */
  predicate Satisfies(l: ProcessingLog, c: Condition) {
    ColumnValue(l, c.column) == Some(c.value)
  }

  function SatisfiesAll(conditions: seq<Condition>): ProcessingLog -> bool {
    l => forall i :: 0 <= i < |conditions| ==> Satisfies(l, conditions[i])
  }

  /** What the filter form means: each non-empty field must equal the log's column. */
  predicate MatchesFilters(l: ProcessingLog, f: LogFilters) {
    && (f.companyId != "" ==> l.companyId == Some(f.companyId))
    && (f.callId != "" ==> l.callId == Some(f.callId))
    && (f.stage != "" ==> l.stage == f.stage)
    && (f.status != "" ==> LogStatusName(l.status) == f.status)
  }

  function Matching(f: LogFilters): ProcessingLog -> bool {
    l => MatchesFilters(l, f)
  }

  lemma SatisfiesSnoc(conditions: seq<Condition>, c: Condition, l: ProcessingLog)
    ensures SatisfiesAll(conditions + [c])(l) <==> SatisfiesAll(conditions)(l) && Satisfies(l, c)
  {
    var s := conditions + [c];
    assert s[|conditions|] == c;
    assert forall i :: 0 <= i < |conditions| ==> s[i] == conditions[i];
  }

  /** Builds the log query from the filter form, adding one condition per
      non-empty field; the query selects exactly the logs the form describes. */
  method BuildQuery(f: LogFilters) returns (q: LogQuery)
    ensures q.limit == PageSize
    ensures forall l :: SatisfiesAll(q.conditions)(l) <==> MatchesFilters(l, f)
  {
    var conditions: seq<Condition> := [];
    if f.companyId != "" {
      conditions := conditions + [Eq(CompanyIdColumn, f.companyId)];
    }
    assert forall l :: SatisfiesAll(conditions)(l) <==> (f.companyId != "" ==> l.companyId == Some(f.companyId)) by {
      forall l ensures SatisfiesAll(conditions)(l) <==> (f.companyId != "" ==> l.companyId == Some(f.companyId)) {
        if f.companyId != "" { SatisfiesSnoc([], Eq(CompanyIdColumn, f.companyId), l); }
      }
    }
    ghost var c1 := conditions;
    if f.callId != "" {
      conditions := conditions + [Eq(CallIdColumn, f.callId)];
    }
    assert forall l :: SatisfiesAll(conditions)(l) <==>
      SatisfiesAll(c1)(l) && (f.callId != "" ==> l.callId == Some(f.callId)) by {
      forall l ensures SatisfiesAll(conditions)(l) <==>
        SatisfiesAll(c1)(l) && (f.callId != "" ==> l.callId == Some(f.callId)) {
        if f.callId != "" { SatisfiesSnoc(c1, Eq(CallIdColumn, f.callId), l); }
      }
    }
    ghost var c2 := conditions;
    if f.stage != "" {
      conditions := conditions + [Eq(StageColumn, f.stage)];
    }
    assert forall l :: SatisfiesAll(conditions)(l) <==>
      SatisfiesAll(c2)(l) && (f.stage != "" ==> l.stage == f.stage) by {
      forall l ensures SatisfiesAll(conditions)(l) <==> SatisfiesAll(c2)(l) && (f.stage != "" ==> l.stage == f.stage) {
        if f.stage != "" { SatisfiesSnoc(c2, Eq(StageColumn, f.stage), l); }
      }
    }
    ghost var c3 := conditions;
    if f.status != "" {
      conditions := conditions + [Eq(StatusColumn, f.status)];
    }
    assert forall l :: SatisfiesAll(conditions)(l) <==>
      SatisfiesAll(c3)(l) && (f.status != "" ==> LogStatusName(l.status) == f.status) by {
      forall l ensures SatisfiesAll(conditions)(l) <==>
        SatisfiesAll(c3)(l) && (f.status != "" ==> LogStatusName(l.status) == f.status) {
        if f.status != "" { SatisfiesSnoc(c3, Eq(StatusColumn, f.status), l); }
      }
    }
    q := LogQuery(conditions, PageSize);
  }

  /** Newest first: ascending on the negated `created_at`. */
  function NewestLogFirst(l: ProcessingLog): int { -l.createdAt }

  /** The rows the store returns for a query: the matching logs, newest
      first, at most `limit` of them. */
  function RunQuery(q: LogQuery, logs: seq<ProcessingLog>): seq<ProcessingLog> {
    Take(SortBy(Filter(logs, SatisfiesAll(q.conditions)), NewestLogFirst), q.limit)
  }

  /** The logs the page should list for a filter form: the newest hundred
      of those the form describes. */
  function FilteredLogs(logs: seq<ProcessingLog>, f: LogFilters): seq<ProcessingLog> {
    Take(SortBy(Filter(logs, Matching(f)), NewestLogFirst), PageSize)
  }

  /** A query built from a form returns exactly the form's logs. */
  lemma QueryAgrees(q: LogQuery, f: LogFilters, logs: seq<ProcessingLog>)
    requires q.limit == PageSize
    requires forall l :: SatisfiesAll(q.conditions)(l) <==> MatchesFilters(l, f)
    ensures RunQuery(q, logs) == FilteredLogs(logs, f)
  {
    FilterAgree(logs, SatisfiesAll(q.conditions), Matching(f));
  }

  /** The listed logs are stored logs the form describes, at most a hundred,
      newest first. */
  lemma FilteredLogsSound(logs: seq<ProcessingLog>, f: LogFilters)
    ensures |FilteredLogs(logs, f)| <= PageSize
    ensures forall l :: l in FilteredLogs(logs, f) ==> l in logs && MatchesFilters(l, f)
    ensures forall i, j :: 0 <= i < j < |FilteredLogs(logs, f)| ==>
      FilteredLogs(logs, f)[j].createdAt <= FilteredLogs(logs, f)[i].createdAt
  {
    var matching := Filter(logs, Matching(f));
    var sorted := SortBy(matching, NewestLogFirst);
    var r := Take(sorted, PageSize);
    SortByIsSorted(matching, NewestLogFirst);
    forall l | l in r ensures l in logs && MatchesFilters(l, f) {
      assert l in multiset(sorted);
    }
    forall i, j | 0 <= i < j < |r| ensures r[j].createdAt <= r[i].createdAt {
      assert r[i] == sorted[i] && r[j] == sorted[j];
    }
  }

  /** No described log is left out in favour of an older one; when at most
      a hundred logs match, all of them are listed, and otherwise exactly a
      hundred are. */
  lemma FilteredLogsNewest(logs: seq<ProcessingLog>, f: LogFilters)
    ensures |FilteredLogs(logs, f)| ==
      if CountWhere(logs, Matching(f)) <= PageSize then CountWhere(logs, Matching(f)) else PageSize
    ensures forall l, m ::
              (l in logs && MatchesFilters(l, f) && l !in FilteredLogs(logs, f) && m in FilteredLogs(logs, f))
              ==> l.createdAt <= m.createdAt
    ensures CountWhere(logs, Matching(f)) <= PageSize ==>
      forall l :: l in logs && MatchesFilters(l, f) ==> l in FilteredLogs(logs, f)
  {
    var matching := Filter(logs, Matching(f));
    var sorted := SortBy(matching, NewestLogFirst);
    SortByIsSorted(matching, NewestLogFirst);
    TakeSortedKeepsLeast(sorted, NewestLogFirst, PageSize);
    forall l | l in logs && MatchesFilters(l, f) ensures l in sorted {
      assert l in multiset(sorted);
    }
  }

  /** An empty form describes every log: the page lists the newest hundred. */
  lemma NoFiltersListsNewest(logs: seq<ProcessingLog>)
    ensures FilteredLogs(logs, NoFilters) == Take(SortBy(logs, NewestLogFirst), PageSize)
  {
    FilterAll(logs, Matching(NoFilters));
  }

  // -------------------------------------------------------------- the rows

  /** A log with the name of its company ("" when it has none or it is not listed). */
  datatype LogRow = LogRow(log: ProcessingLog, companyName: string)

  function JoinLogs(logs: seq<ProcessingLog>, companies: seq<Company>): (r: seq<LogRow>)
    ensures |r| == |logs|
    ensures forall k :: 0 <= k < |r| ==> r[k].log == logs[k]
    ensures forall k :: 0 <= k < |r| ==> r[k].companyName == NameOf(companies, logs[k].companyId, CompanyKey, CompanyName)
  {
    seq(|logs|, k requires 0 <= k < |logs| => LogRow(logs[k], NameOf(companies, logs[k].companyId, CompanyKey, CompanyName)))
  }

  /** Each row carries its company's name when the company is listed, and ""
      when the log has no company or the company is not listed. */
  lemma JoinLogsNames(logs: seq<ProcessingLog>, companies: seq<Company>, k: nat)
    requires DistinctIds(companies, CompanyKey) && k < |logs|
    ensures forall c :: c in companies && Some(c.id) == logs[k].companyId ==>
      JoinLogs(logs, companies)[k].companyName == c.name
    ensures (forall c :: c in companies ==> Some(c.id) != logs[k].companyId) ==>
      JoinLogs(logs, companies)[k].companyName == ""
  {
    forall c | c in companies && Some(c.id) == logs[k].companyId
      ensures JoinLogs(logs, companies)[k].companyName == c.name
    {
      NameOfFound(companies, logs[k].companyId, CompanyKey, CompanyName, c);
    }
  }

  /** The call column: the first eight characters of the call id, or "-"
      when there is none. */
  function CallIdLabel(callId: Option<Id>): (r: string)
    ensures callId.None? || callId == Some("") ==> r == "-"
    ensures callId.Some? && callId.value != "" ==>
      r <= callId.value && |r| == (if |callId.value| < 8 then |callId.value| else 8)
  {
    if callId.None? || callId.value == "" then "-"
    else if |callId.value| < 8 then callId.value
    else callId.value[..8]
  }

  // -------------------------------------------------------------- the page

  class LogsPage {
    const store: RecordStore
    var filters: LogFilters
    var logs: seq<LogRow>
    var companies: seq<Company>

    /** The list shows the form's logs, joined with the company list. */
    ghost predicate Shows()
      reads this, store
    {
      && logs == JoinLogs(FilteredLogs(store.db.logs, filters), store.db.companies)
      && companies == store.db.companies
    }

    /** Mounting the page loads it with an empty form. */
    constructor (store: RecordStore)
      ensures this.store == store && filters == NoFilters && Shows()
    {
      this.store := store;
      filters := NoFilters;
      new;
      LoadData();
    }

    /** Runs the query the form describes and the company list, and joins them. */
    method LoadData()
      modifies this`logs, this`companies
      ensures Shows()
    {
      var q := BuildQuery(filters);
      var found := RunQuery(q, store.db.logs);
      QueryAgrees(q, filters, store.db.logs);
      logs := JoinLogs(found, store.db.companies);
      companies := store.db.companies;
    }

    /** Editing a form field reloads the list. */
    method SetFilters(f: LogFilters)
      modifies this`filters, this`logs, this`companies
      ensures filters == f && Shows()
    {
      filters := f;
      LoadData();
    }

    /** Clearing the form reloads the list with every log eligible. */
    method ResetFilters()
      modifies this`filters, this`logs, this`companies
      ensures filters == NoFilters && Shows()
    {
      SetFilters(NoFilters);
    }
  }
}
