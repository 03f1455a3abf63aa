/** The page controller (`src/pages/Index.tsx`): the state it keeps, the tag list it derives,
    the query it sends, and its load / submit / delete / navigation transitions. Each awaited
    repository call is one step whose outcome is an input: the repository collection before
    the call and whether the call got through at all (`reachable`); a call that does not get
    through throws and is caught. The `loadJobs` effect on `[filters, sortBy]` is run inside the
    transitions that change either value. */
module IndexPage {
  import opened Results
  import opened Text
  import opened Seqs
  import opened Sorting
  import opened Jobs
  import opened JobService
  import JobForm

  // ---------------------------------------------------------------- state

  datatype PageState = PageState(
    jobs: seq<Job>,
    loading: bool,
    showForm: bool,
    editingJob: Option<Job>,
    isSubmitting: bool,
    filters: Filters,
    sortBy: String)

  /** The state before the first load: nothing listed, loading, no form, default filters. */
  const InitialPage: PageState := PageState([], true, false, None, false, DefaultFilters, DefaultSortBy)

  // ---------------------------------------------------------------- available tags

  /** `jobs.flatMap(job => job.tags)`. */
  function FlatTags(jobs: seq<Job>): (r: seq<String>)
    ensures forall t :: t in r <==> exists j :: j in jobs && t in j.tags
  {
    if |jobs| == 0 then []
    else
      assert forall j :: j in jobs <==> j == jobs[0] || j in jobs[1..];
      jobs[0].tags + FlatTags(jobs[1..])
  }

  /** `Array.from(new Set(s))`: first occurrences, in order. */
  function Dedupe<T(==,!new)>(s: seq<T>): (r: seq<T>)
    ensures forall x :: x in r <==> x in s
    ensures forall x :: multiset(r)[x] <= 1
  {
    if |s| == 0 then []
    else
      var init := s[..|s| - 1];
      var last := s[|s| - 1];
      var r := Dedupe(init);
      assert s == init + [last];
      if last in r then r else r + [last]
  }

  /** The default `sort()` order on strings. */
  function TagOrder(): (String, String) -> bool {
    (a: String, b: String) => LexLe(a, b)
  }

  lemma TagOrderTotalPreorder()
    ensures TotalPreorder(TagOrder())
  {
    var le := TagOrder();
    forall a: String, b: String ensures le(a, b) || le(b, a) {
      LexLeTotal(a, b);
    }
    forall a: String, b: String, c: String | le(a, b) && le(b, c) ensures le(a, c) {
      LexLeTransitive(a, b, c);
    }
  }

  /** `availableTags`: every tag of a listed job, once each, in strictly increasing order. */
  function AvailableTags(jobs: seq<Job>): (r: seq<String>)
    ensures forall i, j :: 0 <= i < j < |r| ==> LexLt(r[i], r[j])
    ensures forall t :: t in r <==> exists j :: j in jobs && t in j.tags
  {
    var d := Dedupe(FlatTags(jobs));
    var r := StableSort(d, TagOrder());
    TagOrderTotalPreorder();
    StableSortSorted(d, TagOrder());
    assert forall x :: x in r <==> x in multiset(r);
    assert forall x :: x in d <==> x in multiset(d);
    CountedOnceDistinct(r);
    r
  }

  // ---------------------------------------------------------------- the query sent

  /** `filterParams`: the empty keyword, the wildcards and the empty tag list become absent;
      the sort key is always passed. */
  function FilterParams(f: Filters, sortBy: String): (q: Query)
    ensures q.keyword.None? <==> f.keyword == ""
    ensures q.jobType.None? <==> f.jobType == All
    ensures q.location.None? <==> f.location == All
    ensures q.tags.None? <==> f.tags == []
    ensures q.keyword.Some? ==> q.keyword.value == f.keyword
    ensures q.jobType.Some? ==> q.jobType.value == f.jobType
    ensures q.location.Some? ==> q.location.value == f.location
    ensures q.tags.Some? ==> q.tags.value == f.tags
    ensures q.sortBy == Some(sortBy)
  {
    Query(
      if f.keyword == "" then None else Some(f.keyword),
      if f.jobType != All then Some(f.jobType) else None,
      if f.location != All then Some(f.location) else None,
      if |f.tags| > 0 then Some(f.tags) else None,
      Some(sortBy))
  }

  /** The query that passes every filter value as it is. */
  function RawQuery(f: Filters, sortBy: String): Query {
    Query(Some(f.keyword), Some(f.jobType), Some(f.location), Some(f.tags), Some(sortBy))
  }

  /** Dropping the empty keyword, the wildcards and the empty tag list changes nothing: the
      repository ignores exactly those values anyway. */
  lemma FilterParamsTransparent(store: seq<Job>, f: Filters, sortBy: String)
    ensures GetAllJobs(store, FilterParams(f, sortBy)) == GetAllJobs(store, RawQuery(f, sortBy))
  {
    var q := FilterParams(f, sortBy);
    var raw := RawQuery(f, sortBy);
    forall j ensures Selected(q, j) == Selected(raw, j) {
      SameStagesInEffect(f, sortBy, j);
    }
    SameSelectionSameAnswer(store, q, raw);
  }

  /** Each stage is in effect for the mapped query exactly when it is for the raw one, with
      the same value. */
  lemma SameStagesInEffect(f: Filters, sortBy: String, j: Job)
    ensures Selected(FilterParams(f, sortBy), j) == Selected(RawQuery(f, sortBy), j)
  {
    var q := FilterParams(f, sortBy);
    var raw := RawQuery(f, sortBy);
    assert KeywordOn(q) == KeywordOn(raw);
    assert JobTypeOn(q) == JobTypeOn(raw);
    assert LocationOn(q) == LocationOn(raw);
    assert TagsOn(q) == TagsOn(raw);
  }

  /** The default filters ask for the whole collection, newest first. */
  lemma DefaultQueryIsEverythingNewestFirst(store: seq<Job>)
    ensures GetAllJobs(store, FilterParams(DefaultFilters, DefaultSortBy)) == StableSort(store, Precedes(DateDesc))
  {
    var q := FilterParams(DefaultFilters, DefaultSortBy);
    assert SortKeyOf(q.sortBy) == Some(DateDesc);
    FilterAll(store, SelectedTest(q));
  }

  // ---------------------------------------------------------------- loading

  /** `loadJobs`: on success the list becomes the repository's answer to the current filters;
      on failure the previous list stays. Either way loading ends. */
  function LoadJobs(st: PageState, store: seq<Job>, reachable: bool): (r: PageState)
    ensures !r.loading
    ensures reachable ==> r.jobs == GetAllJobs(store, FilterParams(st.filters, st.sortBy))
    ensures !reachable ==> r.jobs == st.jobs
    ensures r.(jobs := st.jobs, loading := st.loading) == st
  {
    var started := st.(loading := true);
    if reachable then started.(jobs := GetAllJobs(store, FilterParams(st.filters, st.sortBy)), loading := false)
    else started.(loading := false)
  }

  /** The first render runs the effect once. */
  function Mount(store: seq<Job>, reachable: bool): (r: PageState)
    ensures !r.loading && r.filters == DefaultFilters && r.sortBy == DefaultSortBy
    ensures reachable ==> r.jobs == StableSort(store, Precedes(DateDesc))
    ensures !reachable ==> r.jobs == []
  {
    DefaultQueryIsEverythingNewestFirst(store);
    LoadJobs(InitialPage, store, reachable)
  }

  /** `onFiltersChange = setFilters`: every call passes a new record, so the effect reloads. */
  function HandleFiltersChange(st: PageState, f: Filters, store: seq<Job>, reachable: bool): (r: PageState)
    ensures r.filters == f && r.sortBy == st.sortBy
    ensures r == LoadJobs(st.(filters := f), store, reachable)
  {
    LoadJobs(st.(filters := f), store, reachable)
  }

  /** `onSortChange = setSortBy`: re-selecting the current key is no change, so nothing reloads. */
  function HandleSortChange(st: PageState, sortBy: String, store: seq<Job>, reachable: bool): (r: PageState)
    ensures r.sortBy == sortBy && r.filters == st.filters
    ensures sortBy == st.sortBy ==> r == st
    ensures sortBy != st.sortBy ==> r == LoadJobs(st.(sortBy := sortBy), store, reachable)
  {
    if sortBy == st.sortBy then st else LoadJobs(st.(sortBy := sortBy), store, reachable)
  }

  /** `handleResetFilters`: the initial filter record and sort key, then one reload. */
  function HandleResetFilters(st: PageState, store: seq<Job>, reachable: bool): (r: PageState)
    ensures r.filters == InitialPage.filters && r.sortBy == InitialPage.sortBy
    ensures !r.loading
    ensures reachable ==> r.jobs == StableSort(store, Precedes(DateDesc))
    ensures !reachable ==> r.jobs == st.jobs
    ensures r.showForm == st.showForm && r.editingJob == st.editingJob && r.isSubmitting == st.isSubmitting
  {
    DefaultQueryIsEverythingNewestFirst(store);
    LoadJobs(st.(filters := DefaultFilters, sortBy := DefaultSortBy), store, reachable)
  }

  // ---------------------------------------------------------------- navigation

  /** `handleAddJob`: an empty form. */
  function HandleAddJob(st: PageState): (r: PageState)
    ensures r.showForm && r.editingJob.None?
    ensures r.(showForm := st.showForm, editingJob := st.editingJob) == st
  {
    st.(editingJob := None, showForm := true)
  }

  /** `handleEditJob`: the form for the chosen job. */
  function HandleEditJob(st: PageState, job: Job): (r: PageState)
    ensures r.showForm && r.editingJob == Some(job)
    ensures r.(showForm := st.showForm, editingJob := st.editingJob) == st
  {
    st.(editingJob := Some(job), showForm := true)
  }

  /** `handleFormCancel`: the list again, nothing being edited. */
  function HandleFormCancel(st: PageState): (r: PageState)
    ensures !r.showForm && r.editingJob.None?
    ensures r.(showForm := st.showForm, editingJob := st.editingJob) == st
  {
    st.(showForm := false, editingJob := None)
  }

  /** Opening a form and cancelling it returns to the list with nothing else changed. */
  lemma OpenThenCancel(st: PageState, job: Job)
    requires !st.showForm && st.editingJob.None?
    ensures HandleFormCancel(HandleAddJob(st)) == st
    ensures HandleFormCancel(HandleEditJob(st, job)) == st
  {
  }

  // ---------------------------------------------------------------- delete

  /** `handleDeleteJob`: the repository call, then a reload only if it succeeded. A failed call
      (unknown id, or no answer) leaves the page and the collection as they were. */
  function HandleDeleteJob(st: PageState, store: seq<Job>, id: String, reachable: bool,
                           reloadReachable: bool): (r: (PageState, seq<Job>))
    ensures (reachable && HasId(store, id)) ==> r.1 == DeleteJob(store, id).value
                                                && r.0 == LoadJobs(st, r.1, reloadReachable)
    ensures !(reachable && HasId(store, id)) ==> r == (st, store)
    ensures r.0.(jobs := st.jobs, loading := st.loading) == st
  {
    if !reachable then (st, store)
    else
      match DeleteJob(store, id)
      case Err(_) => (st, store)
      case Ok(after) => (LoadJobs(st, after, reloadReachable), after)
  }

  /** After a successful delete and reload, the deleted job is no longer listed, provided the
      id was stored once. */
  lemma DeletedJobNotListed(st: PageState, store: seq<Job>, id: String)
    requires HasId(store, id) && AtMostOnce(store, id)
    ensures forall j :: j in HandleDeleteJob(st, store, id, true, true).0.jobs ==> j.id != id
  {
    DeleteTwiceNotFound(store, id);
  }

  // ---------------------------------------------------------------- submit

  /** The repository call a submit makes. */
  datatype Request = CreateRequest(draft: Draft) | UpdateRequest(id: String, patch: JobPatch)

  /** `handleFormSubmit` updates exactly when a job is being edited, under that job's id. */
  function SubmitRequest(st: PageState, draft: Draft): (r: Request)
    ensures r.UpdateRequest? <==> st.editingJob.Some?
    ensures r.UpdateRequest? ==> r.id == st.editingJob.value.id && r.patch == PatchOf(draft)
    ensures r.CreateRequest? ==> r.draft == draft
  {
    match st.editingJob
    case Some(j) => UpdateRequest(j.id, PatchOf(draft))
    case None => CreateRequest(draft)
  }

  /** The collection after the request, or the error the repository raises. A create stamps the
      draft with the id and date the clock supplies. */
  function Perform(store: seq<Job>, req: Request, newId: String, today: Date): (r: Result<seq<Job>, StoreError>)
    ensures req.CreateRequest? ==> r == Ok(CreateJob(store, req.draft, newId, today).0)
    ensures req.UpdateRequest? ==> (r.Err? <==> !HasId(store, req.id))
    ensures req.UpdateRequest? && r.Ok? ==> r.value == UpdateJob(store, req.id, req.patch).value.0
  {
    match req
    case CreateRequest(d) => Ok(CreateJob(store, d, newId, today).0)
    case UpdateRequest(id, p) =>
      match UpdateJob(store, id, p)
      case Err(e) => Err(e)
      case Ok((after, _)) => Ok(after)
  }

  /** `handleFormSubmit`: on success the form closes, nothing is being edited and the list is
      reloaded; on failure the form and the edited job stay. `isSubmitting` ends false. */
  function HandleFormSubmit(st: PageState, store: seq<Job>, draft: Draft, newId: String, today: Date,
                            reachable: bool, reloadReachable: bool): (r: (PageState, seq<Job>))
    ensures !r.0.isSubmitting
    ensures var out := Perform(store, SubmitRequest(st, draft), newId, today);
            if reachable && out.Ok? then
              && r.1 == out.value
              && r.0 == LoadJobs(st.(showForm := false, editingJob := None, isSubmitting := false), r.1, reloadReachable)
            else
              && r.1 == store
              && r.0 == st.(isSubmitting := false)
  {
    var busy := st.(isSubmitting := true);
    var out := Perform(store, SubmitRequest(st, draft), newId, today);
    if reachable && out.Ok? then
      var closed := busy.(showForm := false, editingJob := None);
      (LoadJobs(closed, out.value, reloadReachable).(isSubmitting := false), out.value)
    else (busy.(isSubmitting := false), store)
  }

  /** A failed submit keeps the form open on the same job and keeps the listed jobs. */
  lemma FailedSubmitKeepsForm(st: PageState, store: seq<Job>, draft: Draft, newId: String, today: Date,
                              reloadReachable: bool)
    requires st.editingJob.Some? && !HasId(store, st.editingJob.value.id)
    ensures var (after, s) := HandleFormSubmit(st, store, draft, newId, today, true, reloadReachable);
            after.showForm == st.showForm && after.editingJob == st.editingJob
            && after.jobs == st.jobs && s == store
  {
  }

  /** Adding a job with the page on the default filters lists it, once the reload succeeds. */
  lemma AddedJobIsListed(st: PageState, store: seq<Job>, draft: Draft, newId: String, today: Date)
    requires st.editingJob.None? && st.filters == DefaultFilters
    ensures var (after, s) := HandleFormSubmit(st, store, draft, newId, today, true, true);
            Stamp(draft, newId, today) in after.jobs && !after.showForm
  {
    var s := CreateJob(store, draft, newId, today).0;
    var q := FilterParams(DefaultFilters, st.sortBy);
    assert s[0] in s;
    assert Selected(q, s[0]);
  }

  /** Updating a job with its own draft stores it again unchanged. */
  lemma UpdateWithOwnDraftIsNoOp(store: seq<Job>, j: Job, newId: String, today: Date)
    requires HasId(store, j.id) && store[FindIndex(store, j.id).value] == j
    ensures Perform(store, UpdateRequest(j.id, PatchOf(DraftOf(j))), newId, today) == Ok(store)
  {
    var i := FindIndex(store, j.id).value;
    assert ApplyPatch(j, PatchOf(DraftOf(j))) == j;
    assert store[i := j] == store;
  }

  /** Saving a job's own draft from its edit view leaves the collection as it was. */
  lemma SaveOwnDraftIsNoOp(st: PageState, store: seq<Job>, j: Job, newId: String, today: Date,
                           reloadReachable: bool)
    requires HasId(store, j.id) && store[FindIndex(store, j.id).value] == j
    ensures HandleFormSubmit(HandleEditJob(st, j), store, DraftOf(j), newId, today, true, reloadReachable).1 == store
  {
    var editing := HandleEditJob(st, j);
    assert SubmitRequest(editing, DraftOf(j)) == UpdateRequest(j.id, PatchOf(DraftOf(j)));
    UpdateWithOwnDraftIsNoOp(store, j, newId, today);
  }

  /** Editing a job and saving the prefilled form untouched leaves the collection as it was,
      when the job is in the shape the form itself produces and is the first with its id. */
  lemma EditSaveUnchangedIsNoOp(st: PageState, store: seq<Job>, j: Job, newId: String, today: Date,
                                reloadReachable: bool)
    requires HasId(store, j.id) && store[FindIndex(store, j.id).value] == j
    requires Trimmed(j.title) && j.title != ""
    requires Trimmed(j.company) && j.company != ""
    requires Trimmed(j.location) && j.location != ""
    requires |j.tags| >= 1 && forall i :: 0 <= i < |j.tags| ==> JobForm.CleanTag(j.tags[i])
    requires j.description.Some? && Trimmed(j.description.value)
    ensures var editing := HandleEditJob(st, j);
            var form := JobForm.Prefill(JobForm.InitialState, editing.editingJob);
            var submitted := JobForm.HandleSubmit(form).1;
            && submitted == Some(DraftOf(j))
            && HandleFormSubmit(editing, store, submitted.value, newId, today, true, reloadReachable).1 == store
  {
    JobForm.PrefillSubmitRoundTrip(JobForm.InitialState, j);
    SaveOwnDraftIsNoOp(st, store, j, newId, today, reloadReachable);
  }
}
