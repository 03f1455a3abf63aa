/** The in-memory job repository and its query engine (`src/services/jobService.ts`).
    The module-level `jobs` array is passed in and returned explicitly: a query takes the
    collection and returns a new sequence, a mutation returns the new collection. */
module JobService {
  import opened Results
  import opened Text
  import opened Seqs
  import opened Sorting
  import opened Jobs

  // ---------------------------------------------------------------- sort keys

  /** The four cases of the sort switch. */
  datatype SortKey = DateDesc | DateAsc | TitleAsc | CompanyAsc

  function SortKeyName(k: SortKey): String {
    match k
    case DateDesc => "date_desc"
    case DateAsc => "date_asc"
    case TitleAsc => "title_asc"
    case CompanyAsc => "company_asc"
  }

  /** The case of the switch a `sortBy` string selects; any other string selects none. */
  function ParseSortKey(s: String): (r: Option<SortKey>)
    ensures r.Some? ==> SortKeyName(r.value) == s
    ensures r.None? ==> forall k :: SortKeyName(k) != s
  {
    if s == "date_desc" then Some(DateDesc)
    else if s == "date_asc" then Some(DateAsc)
    else if s == "title_asc" then Some(TitleAsc)
    else if s == "company_asc" then Some(CompanyAsc)
    else None
  }

  /** The sort the query asks for: none when `sortBy` is absent, empty or unknown. */
  function SortKeyOf(sortBy: Option<String>): Option<SortKey> {
    if sortBy.Some? && sortBy.value != "" then ParseSortKey(sortBy.value) else None
  }

  /** The comparator of each key read as "may come first": `cmp(a, b) <= 0`. Dates compare
      by timestamp difference; titles and companies by `localeCompare`, modelled as code-point
      lexicographic order. */
  function Precedes(k: SortKey): (Job, Job) -> bool {
    match k
    case DateDesc => (a: Job, b: Job) => b.datePosted - a.datePosted <= 0
    case DateAsc => (a: Job, b: Job) => a.datePosted - b.datePosted <= 0
    case TitleAsc => (a: Job, b: Job) => LexLe(a.title, b.title)
    case CompanyAsc => (a: Job, b: Job) => LexLe(a.company, b.company)
  }

  /** Every comparator is a total preorder, so the stable sort is well defined for it. */
  lemma PrecedesTotalPreorder(k: SortKey)
    ensures TotalPreorder(Precedes(k))
  {
    var le := Precedes(k);
    match k
    case DateDesc =>
    case DateAsc =>
    case TitleAsc =>
      forall a: Job, b: Job ensures le(a, b) || le(b, a) {
        LexLeTotal(a.title, b.title);
      }
      forall a: Job, b: Job, c: Job | le(a, b) && le(b, c) ensures le(a, c) {
        LexLeTransitive(a.title, b.title, c.title);
      }
    case CompanyAsc =>
      forall a: Job, b: Job ensures le(a, b) || le(b, a) {
        LexLeTotal(a.company, b.company);
      }
      forall a: Job, b: Job, c: Job | le(a, b) && le(b, c) ensures le(a, c) {
        LexLeTransitive(a.company, b.company, c.company);
      }
  }

  // ---------------------------------------------------------------- the query

  /** The optional `filters` argument of `getAllJobs`; leaving it out is the query with every
      field absent. */
  datatype Query = Query(
    keyword: Option<String>,
    jobType: Option<String>,
    location: Option<String>,
    tags: Option<seq<String>>,
    sortBy: Option<String>)

  const NoQuery: Query := Query(None, None, None, None, None)

  /** A stage runs only when its parameter is truthy and, for job type and location, not the
      wildcard. */
  predicate KeywordOn(q: Query) {
    q.keyword.Some? && q.keyword.value != ""
  }

  predicate JobTypeOn(q: Query) {
    q.jobType.Some? && q.jobType.value != "" && q.jobType.value != All
  }

  predicate LocationOn(q: Query) {
    q.location.Some? && q.location.value != "" && q.location.value != All
  }

  predicate TagsOn(q: Query) {
    q.tags.Some? && |q.tags.value| > 0
  }

  /** The lower-cased keyword occurs in the lower-cased title or company. */
  predicate KeywordMatch(keyword: String, j: Job) {
    Contains(Lower(j.title), Lower(keyword)) || Contains(Lower(j.company), Lower(keyword))
  }

  /** Exact, case-sensitive job-type equality. */
  predicate JobTypeMatch(jobType: String, j: Job) {
    JobTypeName(j.jobType) == jobType
  }

  /** Case-sensitive `includes` on the location. */
  predicate LocationMatch(location: String, j: Job) {
    Contains(j.location, location)
  }

  /** Match-any: some requested tag is, exactly, one of the job's tags. */
  predicate TagsMatch(tags: seq<String>, j: Job) {
    exists t | t in tags :: t in j.tags
  }

  /** The single condition the four stages amount to: every stage in effect accepts the job. */
  predicate Selected(q: Query, j: Job) {
    && (KeywordOn(q) ==> KeywordMatch(q.keyword.value, j))
    && (JobTypeOn(q) ==> JobTypeMatch(q.jobType.value, j))
    && (LocationOn(q) ==> LocationMatch(q.location.value, j))
    && (TagsOn(q) ==> TagsMatch(q.tags.value, j))
  }

  function KeywordTest(q: Query): Job -> bool {
    (j: Job) => KeywordOn(q) ==> KeywordMatch(q.keyword.value, j)
  }

  function JobTypeTest(q: Query): Job -> bool {
    (j: Job) => JobTypeOn(q) ==> JobTypeMatch(q.jobType.value, j)
  }

  function LocationTest(q: Query): Job -> bool {
    (j: Job) => LocationOn(q) ==> LocationMatch(q.location.value, j)
  }

  function TagsTest(q: Query): Job -> bool {
    (j: Job) => TagsOn(q) ==> TagsMatch(q.tags.value, j)
  }

  function SelectedTest(q: Query): Job -> bool {
    (j: Job) => Selected(q, j)
  }

  /** The jobs the query selects, in stored order: the reference the pipeline is measured against. */
  function Matching(store: seq<Job>, q: Query): (r: seq<Job>)
    ensures forall j :: j in r <==> j in store && Selected(q, j)
    ensures multiset(r) <= multiset(store)
  {
    Filter(store, SelectedTest(q))
  }

  /** The first stages combined: keyword and job type. */
  function UpToJobTypeTest(q: Query): Job -> bool {
    (j: Job) => (KeywordOn(q) ==> KeywordMatch(q.keyword.value, j))
             && (JobTypeOn(q) ==> JobTypeMatch(q.jobType.value, j))
  }

  /** The first three stages combined: keyword, job type and location. */
  function UpToLocationTest(q: Query): Job -> bool {
    (j: Job) => (KeywordOn(q) ==> KeywordMatch(q.keyword.value, j))
             && (JobTypeOn(q) ==> JobTypeMatch(q.jobType.value, j))
             && (LocationOn(q) ==> LocationMatch(q.location.value, j))
  }

  function KeywordStage(s: seq<Job>, q: Query): seq<Job> {
    if KeywordOn(q) then Filter(s, KeywordTest(q)) else s
  }

  function JobTypeStage(s: seq<Job>, q: Query): seq<Job> {
    if JobTypeOn(q) then Filter(s, JobTypeTest(q)) else s
  }

  function LocationStage(s: seq<Job>, q: Query): seq<Job> {
    if LocationOn(q) then Filter(s, LocationTest(q)) else s
  }

  function TagsStage(s: seq<Job>, q: Query): seq<Job> {
    if TagsOn(q) then Filter(s, TagsTest(q)) else s
  }


  /** A stage that is switched off keeps everything, so it does not matter whether it runs. */
  lemma StageOrSkip(s: seq<Job>, test: Job -> bool, on: bool)
    requires !on ==> forall j :: test(j)
    ensures (if on then Filter(s, test) else s) == Filter(s, test)
  {
    if !on {
      FilterAll(s, test);
    }
  }

  lemma KeywordStageIsFilter(s: seq<Job>, q: Query)
    ensures KeywordStage(s, q) == Filter(s, KeywordTest(q))
  {
    StageOrSkip(s, KeywordTest(q), KeywordOn(q));
  }

  lemma JobTypeStageIsFilter(s: seq<Job>, q: Query)
    ensures JobTypeStage(Filter(s, KeywordTest(q)), q) == Filter(s, UpToJobTypeTest(q))
  {
    StageOrSkip(Filter(s, KeywordTest(q)), JobTypeTest(q), JobTypeOn(q));
    FilterFilter(s, KeywordTest(q), JobTypeTest(q), UpToJobTypeTest(q));
  }

  lemma LocationStageIsFilter(s: seq<Job>, q: Query)
    ensures LocationStage(Filter(s, UpToJobTypeTest(q)), q) == Filter(s, UpToLocationTest(q))
  {
    StageOrSkip(Filter(s, UpToJobTypeTest(q)), LocationTest(q), LocationOn(q));
    FilterFilter(s, UpToJobTypeTest(q), LocationTest(q), UpToLocationTest(q));
  }

  lemma TagsStageIsFilter(s: seq<Job>, q: Query)
    ensures TagsStage(Filter(s, UpToLocationTest(q)), q) == Filter(s, SelectedTest(q))
  {
    StageOrSkip(Filter(s, UpToLocationTest(q)), TagsTest(q), TagsOn(q));
    FilterFilter(s, UpToLocationTest(q), TagsTest(q), SelectedTest(q));
  }

  /** The four filter stages, in source order, each applied only when its parameter is in
      effect: together they select exactly `Matching`, in stored order. */
  function FilterStages(store: seq<Job>, q: Query): (r: seq<Job>)
    ensures r == Matching(store, q)
  {
    KeywordStageIsFilter(store, q);
    JobTypeStageIsFilter(store, q);
    LocationStageIsFilter(store, q);
    TagsStageIsFilter(store, q);
    TagsStage(LocationStage(JobTypeStage(KeywordStage(store, q), q), q), q)
  }

  /** The sort stage: a stable sort by the selected key, or nothing. */
  function SortStage(s: seq<Job>, sortBy: Option<String>): (r: seq<Job>)
    ensures multiset(r) == multiset(s)
    ensures SortKeyOf(sortBy).None? ==> r == s
    ensures SortKeyOf(sortBy).Some? ==> SortedBy(r, Precedes(SortKeyOf(sortBy).value))
    ensures SortKeyOf(sortBy).Some? ==>
              forall x :: Ties(r, x, Precedes(SortKeyOf(sortBy).value)) == Ties(s, x, Precedes(SortKeyOf(sortBy).value))
  {
    match SortKeyOf(sortBy)
    case None => s
    case Some(k) =>
      PrecedesTotalPreorder(k);
      StableSortSorted(s, Precedes(k));
      assert forall x :: Ties(StableSort(s, Precedes(k)), x, Precedes(k)) == Ties(s, x, Precedes(k)) by {
        forall x ensures Ties(StableSort(s, Precedes(k)), x, Precedes(k)) == Ties(s, x, Precedes(k)) {
          StableSortStable(s, x, Precedes(k));
        }
      }
      StableSort(s, Precedes(k))
  }

  /** `getAllJobs`: filter a copy of the collection, then sort it. The collection itself is not
      returned, so it cannot change. */
  function GetAllJobs(store: seq<Job>, q: Query): (r: seq<Job>)
    ensures forall j :: j in r <==> j in store && Selected(q, j)
    ensures multiset(r) == multiset(Matching(store, q))
    ensures SortKeyOf(q.sortBy).None? ==> r == Matching(store, q)
  {
    var filtered := FilterStages(store, q);
    var r := SortStage(filtered, q.sortBy);
    assert multiset(r) == multiset(filtered);
    assert forall j :: j in r <==> j in multiset(r);
    r
  }

  /** Two queries that select the same jobs and name the same sort give the same answer. */
  lemma SameSelectionSameAnswer(store: seq<Job>, q1: Query, q2: Query)
    requires forall j :: Selected(q1, j) == Selected(q2, j)
    requires q1.sortBy == q2.sortBy
    ensures GetAllJobs(store, q1) == GetAllJobs(store, q2)
  {
    FilterExt(store, SelectedTest(q1), SelectedTest(q2));
  }

  /** With a known key the result is ordered by that key's comparator. */
  lemma GetAllJobsSorted(store: seq<Job>, q: Query)
    requires SortKeyOf(q.sortBy).Some?
    ensures SortedBy(GetAllJobs(store, q), Precedes(SortKeyOf(q.sortBy).value))
  {
    var k := SortKeyOf(q.sortBy).value;
    PrecedesTotalPreorder(k);
    StableSortSorted(Matching(store, q), Precedes(k));
  }

  /** With a known key, jobs the comparator calls equal keep their filtered relative order. */
  lemma GetAllJobsStable(store: seq<Job>, q: Query, x: Job)
    requires SortKeyOf(q.sortBy).Some?
    ensures var le := Precedes(SortKeyOf(q.sortBy).value);
            Ties(GetAllJobs(store, q), x, le) == Ties(Matching(store, q), x, le)
  {
    var k := SortKeyOf(q.sortBy).value;
    PrecedesTotalPreorder(k);
    StableSortStable(Matching(store, q), x, Precedes(k));
  }

  /** The result is THE stable sort: any ordering of the matching jobs that is sorted and keeps
      every tie class in filtered order equals it. */
  lemma GetAllJobsIsTheStableSort(store: seq<Job>, q: Query, t: seq<Job>)
    requires SortKeyOf(q.sortBy).Some?
    requires SortedBy(t, Precedes(SortKeyOf(q.sortBy).value))
    requires forall x :: Ties(t, x, Precedes(SortKeyOf(q.sortBy).value))
                      == Ties(Matching(store, q), x, Precedes(SortKeyOf(q.sortBy).value))
    ensures t == GetAllJobs(store, q)
  {
    var k := SortKeyOf(q.sortBy).value;
    PrecedesTotalPreorder(k);
    StableSortUnique(Matching(store, q), t, Precedes(k));
  }

  /** An empty query with no known sort returns the collection unchanged, in order. */
  lemma NoQueryIsIdentity(store: seq<Job>)
    ensures GetAllJobs(store, NoQuery) == store
  {
    FilterAll(store, SelectedTest(NoQuery));
  }

  /** Adding a tag to a non-empty tag filter never removes a job (match-any widens or holds). */
  lemma AddingTagKeepsJobs(store: seq<Job>, q: Query, t: String)
    requires TagsOn(q)
    ensures var wider := q.(tags := Some(q.tags.value + [t]));
            multiset(GetAllJobs(store, q)) <= multiset(GetAllJobs(store, wider))
  {
    var wider := q.(tags := Some(q.tags.value + [t]));
    forall j | j in store && SelectedTest(q)(j) ensures SelectedTest(wider)(j) {
      var u :| u in q.tags.value && u in j.tags;
      assert u in wider.tags.value;
    }
    FilterMonotone(store, SelectedTest(q), SelectedTest(wider));
  }

  /** With an empty tag list, adding a tag can remove jobs: the empty list imposes nothing. */
  lemma FirstTagNarrows(j: Job, t: String)
    requires t !in j.tags
    ensures GetAllJobs([j], Query(None, None, None, Some([]), None)) == [j]
    ensures GetAllJobs([j], Query(None, None, None, Some([t]), None)) == []
  {
    var q := Query(None, None, None, Some([t]), None);
    assert !Selected(q, j);
  }

  // ---------------------------------------------------------------- lookups and mutations

  /** The repository's only error: `new Error('Job not found')`. */
  datatype StoreError = NotFound

  const NotFoundMessage: String := "Job not found"

  /** Some stored job has this id. */
  predicate HasId(store: seq<Job>, id: String) {
    exists j | j in store :: j.id == id
  }

  /** `findIndex(job => job.id === id)`: the first index with the id. */
  function FindIndex(store: seq<Job>, id: String): (r: Option<nat>)
    ensures r.Some? ==> r.value < |store| && store[r.value].id == id
    ensures r.Some? ==> forall k :: 0 <= k < r.value ==> store[k].id != id
    ensures r.None? <==> !HasId(store, id)
  {
    if |store| == 0 then None
    else if store[0].id == id then Some(0)
    else
      match FindIndex(store[1..], id)
      case None =>
        assert forall j :: j in store ==> j == store[0] || j in store[1..];
        None
      case Some(i) => Some(i + 1)
  }

  /** `getJobById`: the first job with the id, or `null`. */
  function GetJobById(store: seq<Job>, id: String): (r: Option<Job>)
    ensures r.None? <==> !HasId(store, id)
    ensures r.Some? ==> r.value.id == id && r.value in store
    ensures r.Some? ==> r.value == store[FindIndex(store, id).value]
  {
    match FindIndex(store, id)
    case None => None
    case Some(i) => Some(store[i])
  }

  /** `createJob`: the draft stamped with the id and date the clock supplies, put at the front. */
  function CreateJob(store: seq<Job>, draft: Draft, newId: String, today: Date): (r: (seq<Job>, Job))
    ensures DraftOf(r.1) == draft && r.1.id == newId && r.1.datePosted == today
    ensures |r.0| == |store| + 1 && r.0[0] == r.1
    ensures forall k :: 0 <= k < |store| ==> r.0[k + 1] == store[k]
  {
    var job := Stamp(draft, newId, today);
    ([job] + store, job)
  }

  /** Looking up the id just created finds the created job, even when the clock repeated an id:
      the new job is in front of any older one. */
  lemma CreateThenGet(store: seq<Job>, draft: Draft, newId: String, today: Date)
    ensures var (after, job) := CreateJob(store, draft, newId, today);
            GetJobById(after, newId) == Some(job)
  {
  }

  /** `{ ...job, ...patch }`: every field present in the patch wins, every omitted one stays. */
  function ApplyPatch(j: Job, p: JobPatch): (r: Job)
    ensures r.id == (if p.id.Some? then p.id.value else j.id)
    ensures r.title == (if p.title.Some? then p.title.value else j.title)
    ensures r.company == (if p.company.Some? then p.company.value else j.company)
    ensures r.location == (if p.location.Some? then p.location.value else j.location)
    ensures r.jobType == (if p.jobType.Some? then p.jobType.value else j.jobType)
    ensures r.tags == (if p.tags.Some? then p.tags.value else j.tags)
    ensures r.datePosted == (if p.datePosted.Some? then p.datePosted.value else j.datePosted)
    ensures p.description.Some? ==> r.description == p.description
    ensures p.description.None? ==> r.description == j.description
  {
    Job(p.id.GetOr(j.id), p.title.GetOr(j.title), p.company.GetOr(j.company),
        p.location.GetOr(j.location), p.jobType.GetOr(j.jobType), p.tags.GetOr(j.tags),
        p.datePosted.GetOr(j.datePosted), if p.description.Some? then p.description else j.description)
  }

  /** The patch with every field omitted. */
  const NoChanges: JobPatch := JobPatch(None, None, None, None, None, None, None, None)

  /** An empty patch changes nothing, and applying a patch twice is applying it once. */
  lemma ApplyPatchLaws(j: Job, p: JobPatch)
    ensures ApplyPatch(j, NoChanges) == j
    ensures ApplyPatch(ApplyPatch(j, p), p) == ApplyPatch(j, p)
  {
  }

  /** A draft sent as a patch replaces the whole draft part and keeps the id and the date. */
  lemma PatchOfDraft(j: Job, d: Draft)
    requires d.description.Some?
    ensures ApplyPatch(j, PatchOf(d)) == Stamp(d, j.id, j.datePosted)
  {
  }

  /** `updateJob`: NotFound when no job has the id; otherwise the patch is applied to the first
      job with the id, and that job is returned. */
  function UpdateJob(store: seq<Job>, id: String, patch: JobPatch): (r: Result<(seq<Job>, Job), StoreError>)
    ensures r.Err? <==> !HasId(store, id)
    ensures r.Ok? ==> |r.value.0| == |store|
    ensures r.Ok? ==> var i := FindIndex(store, id).value;
                      && r.value.1 == ApplyPatch(store[i], patch)
                      && r.value.0[i] == r.value.1
                      && forall k :: 0 <= k < |store| && k != i ==> r.value.0[k] == store[k]
  {
    match FindIndex(store, id)
    case None => Err(NotFound)
    case Some(i) =>
      var updated := ApplyPatch(store[i], patch);
      Ok((store[i := updated], updated))
  }

  /** After an update that keeps the id, looking the id up returns the updated job. */
  lemma UpdateThenGet(store: seq<Job>, id: String, patch: JobPatch)
    requires HasId(store, id)
    requires patch.id.None? || patch.id == Some(id)
    ensures GetJobById(UpdateJob(store, id, patch).value.0, id) == Some(UpdateJob(store, id, patch).value.1)
  {
    var i := FindIndex(store, id).value;
    var after := UpdateJob(store, id, patch).value.0;
    var f := FindIndex(after, id);
    assert after[i].id == id;
    assert HasId(after, id) by { assert after[i] in after; }
  }

  /** `deleteJob`: NotFound when no job has the id; otherwise the first job with the id is
      spliced out and every other job keeps its order. */
  function DeleteJob(store: seq<Job>, id: String): (r: Result<seq<Job>, StoreError>)
    ensures r.Err? <==> !HasId(store, id)
    ensures r.Ok? ==> var i := FindIndex(store, id).value;
                      && r.value == store[..i] + store[i + 1..]
                      && multiset(r.value) == multiset(store) - multiset{store[i]}
  {
    match FindIndex(store, id)
    case None => Err(NotFound)
    case Some(i) =>
      assert store == store[..i] + [store[i]] + store[i + 1..];
      Ok(store[..i] + store[i + 1..])
  }

  /** The id occurs at most once in the collection. */
  predicate AtMostOnce(store: seq<Job>, id: String) {
    forall k, l :: 0 <= k < l < |store| && store[k].id == id ==> store[l].id != id
  }

  /** Deleting an id that occurred once, a second time, raises NotFound. */
  lemma DeleteTwiceNotFound(store: seq<Job>, id: String)
    requires HasId(store, id) && AtMostOnce(store, id)
    ensures DeleteJob(store, id).Ok?
    ensures DeleteJob(DeleteJob(store, id).value, id) == Err(NotFound)
  {
    var i := FindIndex(store, id).value;
    var after := DeleteJob(store, id).value;
    forall j | j in after ensures j.id != id {
      var k :| 0 <= k < |after| && after[k] == j;
      if k < i { assert after[k] == store[k]; } else { assert after[k] == store[k + 1]; }
    }
  }
}
