# Job board: a Dafny model of its query, store, form and page logic

This project models the logic of a job-board application. That logic has two parts:

- a React client: an in-memory job repository with a query engine, a page controller, a filter panel and an add/edit form;
- a Flask backend.

The model is functional. Jobs, drafts, partial updates, filter records, form state and page state are immutable datatypes. Every handler is a pure function from the old state to the new one.

Inputs the source reads from the environment are passed in as parameters:

- the clock (the new id and today's date);
- whether an awaited call got through at all;
- for the backend, the order in which the table is stored.

Modules, one per source file plus four shared helpers:

| module | models |
|---|---|
| `Jobs` | the records of `src/types/Job.ts` |
| `JobService` | `src/services/jobService.ts`: the four filter stages, the four stable sorts, and get/create/update/delete with `NotFound` |
| `IndexPage` | `src/pages/Index.tsx`: `availableTags`, the filter-parameter mapping, and the load/submit/delete/navigation transitions |
| `JobFilterPanel` | `src/components/JobFilters.tsx`: field handlers, tag toggle and remove, `hasActiveFilters`, option lists |
| `JobForm` | `src/components/JobForm.tsx`: prefill, `validateForm`, the submitted draft, tag parsing, `handleInputChange` |
| `Backend` | the pure parts of `backend/app.py`: `validate_data`, the row create/update store, the tag column, the NotFound replies, what `get_jobs` selects and how it may order it |
| `Text` | lower-casing, substring search, trimming, split/join, code-point order |
| `Seqs` | order-preserving filtering and mapping |
| `Sorting` | a stable insertion sort, with sortedness, stability and uniqueness proved |
| `Results` | `Option` and `Result` |

## Model

| member | source | states |
|---|---|---|
| Jobs.ParseJobType | src/types/Job.ts:7 | a string names a job type exactly when it is one of the five spellings; otherwise no job type is spelled that way |
| Jobs.JobTypeRoundTrip | src/types/Job.ts:7 | spelling a job type and reading it back gives the same job type |
| Jobs.Stamp | src/services/jobService.ts:130-134 | the stamped job keeps every draft field and carries exactly the supplied id and date |
| JobService.ParseSortKey | src/services/jobService.ts:103-116 | a `sortBy` string selects a case of the switch exactly when it is that case's label; any other string selects none |
| JobService.PrecedesTotalPreorder | src/services/jobService.ts:104-115 | each of the four comparators is total and transitive, so the stable sort is well defined |
| JobService.Matching | src/services/jobService.ts:79-99 | the reference selection holds exactly the stored jobs every stage in effect accepts, with no job more often than stored |
| JobService.FilterStages | src/services/jobService.ts:77-99 | running the four stages in source order, each only when its parameter is truthy and not `All`, selects exactly the reference `Matching`: the conjunction of the stages in effect, in stored order |
| JobService.SortStage | src/services/jobService.ts:102-117 | the sort keeps the jobs as a permutation; with no known key it changes nothing; with a known key the output is ordered by that key's comparator and every tie class keeps its input order |
| JobService.GetAllJobs | src/services/jobService.ts:74-120 | the result holds exactly the selected jobs, as a permutation of the stored-order selection; with no known `sortBy` it is that selection itself, an order-preserving subsequence of the collection |
| JobService.SameSelectionSameAnswer | src/services/jobService.ts:79-117 | the answer depends only on which jobs the filters select and on `sortBy` |
| JobService.GetAllJobsSorted | src/services/jobService.ts:102-117 | with a known key the result is ordered by that key's comparator |
| JobService.GetAllJobsStable | src/services/jobService.ts:102-117 | with a known key, jobs the comparator calls equal keep their filtered relative order |
| JobService.GetAllJobsIsTheStableSort | src/services/jobService.ts:102-117 | every sorted arrangement that keeps each tie class in filtered order is the result, so the result is determined |
| JobService.NoQueryIsIdentity | src/services/jobService.ts:74-120 | calling without filters returns the whole collection in stored order |
| JobService.AddingTagKeepsJobs | src/services/jobService.ts:95-99 | with a non-empty tag list, adding a tag never drops a job (match-any) |
| JobService.FirstTagNarrows | src/services/jobService.ts:95 | an empty tag list imposes nothing, so going from no tag to one tag can drop a job |
| JobService.FindIndex | src/services/jobService.ts:143 | the index found holds the id and no earlier index does; none is found exactly when no job has the id |
| JobService.GetJobById | src/services/jobService.ts:122-125 | the first stored job with the id, or nothing exactly when no job has it |
| JobService.CreateJob | src/services/jobService.ts:127-138 | the new job is the draft with the supplied id and date; it is at index 0, the length grows by one, and every old job moves one place unchanged |
| JobService.CreateThenGet | src/services/jobService.ts:124-136 | looking up the new id finds the new job, even when an older job has the same id |
| JobService.ApplyPatch | src/services/jobService.ts:148 | each field present in the partial update wins; each omitted field keeps its old value |
| JobService.ApplyPatchLaws | src/services/jobService.ts:148 | an empty partial changes nothing, and merging the same partial twice equals merging it once |
| JobService.PatchOfDraft | src/services/jobService.ts:148 | merging a full draft replaces every draft field and keeps the id and the date |
| JobService.UpdateJob | src/services/jobService.ts:140-150 | NotFound exactly when no job has the id; otherwise only the first job with the id changes, to the merged job, which is returned; the length is unchanged |
| JobService.UpdateThenGet | src/services/jobService.ts:122-150 | after an update that keeps the id, looking the id up returns the updated job |
| JobService.DeleteJob | src/services/jobService.ts:152-161 | NotFound exactly when no job has the id; otherwise exactly the first job with the id is removed and the others keep their order |
| JobService.DeleteTwiceNotFound | src/services/jobService.ts:155-160 | deleting an id that occurred once succeeds, and deleting it again raises NotFound |
| IndexPage.FlatTags | src/pages/Index.tsx:29 | a tag is in the flattened list exactly when some job carries it |
| IndexPage.Dedupe | src/pages/Index.tsx:29 | `Array.from(new Set(..))` keeps the same members, each exactly once |
| IndexPage.TagOrderTotalPreorder | src/pages/Index.tsx:30 | the default string order used by `sort()` is total and transitive |
| IndexPage.AvailableTags | src/pages/Index.tsx:28-30 | the available tags are strictly increasing, so sorted and duplicate-free, and are exactly the union of the listed jobs' tags |
| IndexPage.FilterParams | src/pages/Index.tsx:39-45 | an empty keyword, an `All` job type or location and an empty tag list become absent; every other value is passed unchanged; `sortBy` is always passed |
| IndexPage.FilterParamsTransparent | src/pages/Index.tsx:39-45 | the mapping never changes the answer: the repository ignores exactly the values it drops |
| IndexPage.SameStagesInEffect | src/pages/Index.tsx:39-45 | the mapped query and the raw filter record switch on the same stages, with the same values |
| IndexPage.DefaultQueryIsEverythingNewestFirst | src/pages/Index.tsx:18-24 | the initial filters and sort key ask for the whole collection, stably sorted newest first |
| IndexPage.LoadJobs | src/pages/Index.tsx:36-59 | on success the list becomes the repository's answer to the current filters; on failure the old list stays; loading is false afterwards; nothing else changes |
| IndexPage.Mount | src/pages/Index.tsx:13-34 | the first load lists the whole collection newest first, or nothing if the call fails; loading ends |
| IndexPage.HandleFiltersChange | src/pages/Index.tsx:181 | a new filter record is stored and triggers one reload with the sort key unchanged |
| IndexPage.HandleSortChange | src/pages/Index.tsx:182 | a new sort key is stored and triggers a reload; re-selecting the current key changes nothing |
| IndexPage.HandleResetFilters | src/pages/Index.tsx:127-135 | restores exactly the initial filter record and `date_desc`, reloading the whole collection newest first, or keeping the listed jobs if the call fails; loading ends; the form state is untouched |
| IndexPage.HandleAddJob | src/pages/Index.tsx:61-64 | opens the form with no job being edited; nothing else changes |
| IndexPage.HandleEditJob | src/pages/Index.tsx:66-69 | opens the form on the chosen job; nothing else changes |
| IndexPage.HandleFormCancel | src/pages/Index.tsx:122-125 | closes the form and clears the edited job; nothing else changes |
| IndexPage.OpenThenCancel | src/pages/Index.tsx:122-125 | opening either form and cancelling returns the page to the state it was in |
| IndexPage.HandleDeleteJob | src/pages/Index.tsx:71-87 | reloads only after a delete that succeeds; a failed delete leaves the page and the collection as they were |
| IndexPage.DeletedJobNotListed | src/pages/Index.tsx:71-74 | after a successful delete and reload, no listed job has the deleted id, provided that id was stored once |
| IndexPage.SubmitRequest | src/pages/Index.tsx:93-105 | the submit updates under the edited job's id exactly when a job is being edited, and creates otherwise |
| IndexPage.Perform | src/pages/Index.tsx:94-100 | a create always succeeds with the stamped job in front; an update fails exactly when the id is unknown |
| IndexPage.HandleFormSubmit | src/pages/Index.tsx:89-120 | on success the collection changes as requested, the form closes, nothing is being edited and the list reloads; on failure the form, the edited job and the collection are kept; `isSubmitting` ends false |
| IndexPage.FailedSubmitKeepsForm | src/pages/Index.tsx:110-119 | an update of a vanished job keeps the form open on the same job and keeps the listed jobs |
| IndexPage.AddedJobIsListed | src/pages/Index.tsx:100-109 | with the default filters, an added job is listed after the reload and the form is closed |
| IndexPage.UpdateWithOwnDraftIsNoOp | src/pages/Index.tsx:94 | updating any job, with or without a description, with its own draft stores it again unchanged |
| IndexPage.SaveOwnDraftIsNoOp | src/pages/Index.tsx:66-94 | saving any job's own draft from its edit view, with or without a description, leaves the collection unchanged |
| IndexPage.EditSaveUnchangedIsNoOp | src/pages/Index.tsx:66-109 | editing a job and saving the prefilled form untouched leaves the collection unchanged, for a job in the shape the form produces |
| JobFilterPanel.SortOptionsMatchService | src/components/JobFilters.tsx:21-26 | the sort options' values are exactly the four keys the service's switch handles, each once |
| JobFilterPanel.JobTypeChoicesMatchEnumeration | src/components/JobFilters.tsx:28 | the job-type choices are the wildcard plus exactly the spellings of the enumeration |
| JobFilterPanel.HandleKeywordChange | src/components/JobFilters.tsx:39-41 | only the keyword changes |
| JobFilterPanel.HandleJobTypeChange | src/components/JobFilters.tsx:43-45 | only the job type changes |
| JobFilterPanel.HandleLocationChange | src/components/JobFilters.tsx:47-49 | only the location changes |
| JobFilterPanel.FieldHandlersCommute | src/components/JobFilters.tsx:39-49 | because each handler touches only its own field, any two of them commute |
| JobFilterPanel.Without | src/components/JobFilters.tsx:53-61 | filtering a tag out keeps exactly the other tags, as a subsequence in their original order, and changes nothing when the tag is absent |
| JobFilterPanel.HandleTagToggle | src/components/JobFilters.tsx:51-56 | an absent tag is appended at the end; a present tag is removed everywhere and the rest keep their order; the other fields stay |
| JobFilterPanel.ToggleTwiceRestores | src/components/JobFilters.tsx:51-56 | toggling an absent tag twice gives back the original record |
| JobFilterPanel.ToggleFlipsMembership | src/components/JobFilters.tsx:51-56 | toggling flips whether the tag is selected |
| JobFilterPanel.RemoveTag | src/components/JobFilters.tsx:58-63 | the tag list becomes the list with every occurrence of the tag filtered out, the other tags kept in order; nothing is added, and nothing changes when the tag is absent |
| JobFilterPanel.RemoveTagIdempotent | src/components/JobFilters.tsx:58-63 | removing a tag twice is removing it once |
| JobFilterPanel.RemoveTags | src/components/JobFilters.tsx:204-211 | clicking the cross of each listed tag leaves exactly the selected tags that were not clicked, in their original order, and keeps the other fields |
| JobFilterPanel.InactiveIffDefault | src/components/JobFilters.tsx:65 | `hasActiveFilters` is false exactly when the record is the reset default |
| JobFilterPanel.ClearKeywordChip | src/components/JobFilters.tsx:182 | the search chip's cross restores the default keyword and keeps the type, location and tags |
| JobFilterPanel.ClearJobTypeChip | src/components/JobFilters.tsx:191 | the type chip's cross restores the default job type and keeps the keyword, location and tags |
| JobFilterPanel.ClearLocationChip | src/components/JobFilters.tsx:200 | the location chip's cross restores the default location and keeps the keyword, type and tags |
| JobFilterPanel.ClearingEveryChipResets | src/components/JobFilters.tsx:177-211 | clearing every chip shown gives the default, inactive record |
| JobForm.Prefill | src/components/JobForm.tsx:30-41 | editing copies the job's title, company, location and type, the tags joined with ", " ("" for no tags) and the description, "" when missing; with no job the form stays; errors are kept |
| JobForm.CheckAll | src/components/JobForm.tsx:44-60 | the four checks give a key for exactly the blank required fields, each with its non-empty message |
| JobForm.ValidateForm | src/components/JobForm.tsx:43-64 | there is an error key for exactly each required field whose trimmed text is empty, none for job type or description; the form is valid exactly when all four are non-blank |
| JobForm.ValidateFormFlagsExactlyBlankRequired | src/components/JobForm.tsx:43-64 | a field has an error exactly when it is required and blank |
| JobForm.ParseTags | src/components/JobForm.tsx:78 | every parsed tag is non-empty, has no surrounding whitespace and contains no comma; a string is a tag exactly when it is the non-empty trim of some comma-separated piece; there are at most as many tags as pieces |
| JobForm.ParseTagsPieces | src/components/JobForm.tsx:78 | text typed as comma-separated pieces gives the pieces' trims, in order, with the blank ones dropped |
| JobForm.ParseTagsPlainText | src/components/JobForm.tsx:78 | `"a,b"` parses to the tags `a` and `b` |
| JobForm.ParseTagsPaddedText | src/components/JobForm.tsx:78 | `" a , ,b"` parses to the tags `a` and `b`: padding is trimmed and the empty piece dropped |
| JobForm.ParseTagsJoinRoundTrip | src/components/JobForm.tsx:78 | parsing the `join(', ')` prefill of line 37 gives back the tag list when every tag is non-empty, trimmed and comma-free |
| JobForm.ValidationAllowsNoTags | src/components/JobForm.tsx:58-78 | validation does not ensure a tag: `", ,"` is not blank yet parses to no tags |
| JobForm.BuildDraft | src/components/JobForm.tsx:73-80 | title, company, location and description are the trimmed inputs, each empty exactly when its input is blank; the tags are the parsed tags text, every one clean; the job type is passed as selected |
| JobForm.HandleSubmit | src/components/JobForm.tsx:66-83 | the errors become the fresh validation result; a draft is submitted exactly when validation passes, and it has non-empty title, company and location |
| JobForm.PrefillSubmitRoundTrip | src/components/JobForm.tsx:30-83 | submitting the untouched prefill of a job in the form's own shape hands back that job's draft |
| JobForm.SetField | src/components/JobForm.tsx:86 | the named field takes the value and every other field keeps its text |
| JobForm.ClearError | src/components/JobForm.tsx:87-89 | a shown error under the edited field is blanked; other errors and the key set are unchanged |
| JobForm.HandleInputChange | src/components/JobForm.tsx:85-90 | the named field is updated and only its error is cleared |
| JobForm.EditingRequiredFieldsClearsErrors | src/components/JobForm.tsx:85-90 | after a submit, editing the four required fields hides every error |
| JobForm.SubmitFlagsOnlyRequired | src/components/JobForm.tsx:43-69 | a submit shows errors only under required fields |
| Backend.ValidateData | backend/app.py:41-57 | each message appears exactly when its check fails, at most once, in check order; the list is empty exactly when title, company and location are non-blank and the job type is one of the five |
| Backend.BlankJobTypeTwoMessages | backend/app.py:50-55 | a blank or missing job type yields both "Job type is required" and "Invalid job type" |
| Backend.AcceptedJobTypeParses | backend/app.py:53-54 | an accepted job type is a spelling of the client's enumeration |
| Backend.TagEncodingRoundTrip | backend/app.py:195 | decoding the comma-joined column (line 36) gives back comma-free tags exactly when the list is not `[""]`; the empty list encodes to "" and decodes to [] |
| Backend.CommaInTagSplits | backend/app.py:195 | a tag containing a comma, joined here and split at line 36, comes back as two tags |
| Backend.DecodeTags | backend/app.py:36 | an empty column decodes to no tags, and no decoded tag contains a comma |
| Backend.EncodeTags | backend/app.py:195 | no tags give the empty column, one tag is stored as itself, two or more always put a comma in the column; decoding inverts it (TagEncodingRoundTrip) |
| Backend.ErrorText | backend/app.py:186-187 | the 400 text is the messages, in order, joined with ", " |
| Backend.DecimalString | backend/app.py:31 | `str(id)` is a digit string without leading zeros whose decimal value, as the `<int:job_id>` route converter of line 167 reads it, is the key |
| Backend.DecimalStringInjective | backend/app.py:31 | distinct keys are rendered as distinct JSON ids |
| Backend.ToDict | backend/app.py:29-39 | the JSON object carries the row's fields, with the tag column decoded and the key as the decimal string that reads back as that key |
| Backend.RowOf | backend/app.py:190-197 | an accepted payload is stored with the stripped title, company and location (non-empty), the job type as sent, the comma-joined tags and the stripped description ("" when missing); the update at lines 225-230 stores the same fields |
| Backend.Admit | backend/app.py:180-187 | a missing body gives "No data provided"; a rejected payload gives its messages joined by ", "; otherwise the row to store; the update repeats these checks at lines 215-222 |
| Backend.CreateJobAsWritten | backend/app.py:177-206 | the create as written: 400 with the text for a missing or rejected body, otherwise one new row dated with the day the module was loaded, the default fixed at line 26 |
| Backend.CreatedJobsCarryLoadDay | backend/app.py:26 | on any later day, a job created as written is not dated today |
| Backend.CreateJob | backend/app.py:177-206 | 201 exactly for an accepted payload, adding one row under the new key dated today; otherwise 400 and the table is unchanged |
| Backend.CreateThenGet | backend/app.py:177-206 | a created job reads back through `get_job` (lines 167-175) under its key dated today, and every other key reads as before |
| Backend.CreateJobCorrectsOnlyTheDate | backend/app.py:26 | the corrected create differs from the written one only in the date it stores |
| Backend.GetJob | backend/app.py:167-175 | 404 "Job not found" exactly for an unknown key, otherwise the row's JSON |
| Backend.UpdateJob | backend/app.py:208-238 | 404 for an unknown key before the body is looked at; 200 exactly for a known key with an accepted payload, replacing that row's fields and keeping its date; otherwise the table is unchanged |
| Backend.UpdateThenGet | backend/app.py:208-238 | reading an updated row through `get_job` (lines 167-175) returns what the payload asked for, dated as before |
| Backend.DeleteJob | backend/app.py:240-254 | 404 for an unknown key; otherwise 204 and exactly that row is gone |
| Backend.DeleteThenNotFound | backend/app.py:240-254 | after a delete, get (lines 170-172), update (lines 211-213) and delete of that key all answer 404 |
| Backend.SortKey | backend/app.py:151-159 | `sortBy` defaults to `date_desc`; an unrecognised value selects no ordering |
| Backend.RowOrderTotalPreorder | backend/app.py:152-159 | each `ORDER BY` is total and transitive |
| Backend.Scan | backend/app.py:161 | the storage-order scan lists the row under each scanned key |
| Backend.ScanEnumerates | backend/app.py:161 | a scan that lists every key once yields every row once |
| Backend.GetJobs | backend/app.py:122-162 | the answer holds every row passing all filters exactly once and nothing else, ordered by the selected key; with no key it is the matching rows in storage order |
| Backend.ListingsArePermutations | backend/app.py:151-161 | any two admissible answers to one query hold the same rows; only the order of ties, or of everything with no key, may differ |
| Backend.MoreTagsNarrow | backend/app.py:145-148 | tags are matched all-of, so asking for one more tag never adds a row |
| Backend.KeywordAgrees | backend/app.py:128-135 | for ASCII text and a keyword without `%` or `_`, the server's keyword filter keeps exactly the jobs the client's keeps |
| Backend.WildcardsImposeNothing | backend/app.py:128-143 | an empty keyword, and an empty or `All` job type or location, filter exactly as leaving the parameter out |
| Backend.RowMatchesAddTag | backend/app.py:145-148 | each requested tag adds one more case-insensitive substring filter on the tag column, conjoined with the others |
| Backend.NoArgsMatchEveryRow | backend/app.py:122-148 | with no filter parameter every row matches |
| Backend.LocationCaseDiffers | backend/app.py:141-143 | the server matches the location ignoring case, and the client does not |
| Backend.TagModesDiffer | backend/app.py:145-148 | a job carrying one of two requested tags is kept by the client (match-any) and dropped by the server (match-all) |
| Sorting.StableSortSorted | src/services/jobService.ts:105-114 | the stable sort orders its output by any total preorder |
| Sorting.StableSortStable | src/services/jobService.ts:105-114 | each tie class appears in the output in exactly its input order |
| Sorting.StableSortUnique | src/services/jobService.ts:105-114 | a sorted sequence with the same tie classes, in the same order, is the stable sort |
| Text.Trim | src/components/JobForm.tsx:46-58 | the input is a blank prefix, then the result, then a blank suffix; the result has no whitespace at either end and is empty exactly when the input is blank |
| Text.TrimDetermined | src/components/JobForm.tsx:74-79 | any non-empty string with no whitespace at either end that the input strips to is the trim, so the trim is determined |
| Text.TrimInfix | src/components/JobForm.tsx:74-79 | the trimmed string occurs inside the original |
| Text.TrimTrimmed | src/components/JobForm.tsx:74-79 | trimming an already trimmed string changes nothing |
| Text.JoinSplit | backend/app.py:36 | joining the pieces of a split with the same separator gives back the string |
| Text.SplitJoin | backend/app.py:195 | splitting (line 36) a join of separator-free pieces gives back the pieces |

## Left out

- Rendering, JSX, CSS, toasts, `console.error` and `src/components/JobCard.tsx` (date formatting and the `window.confirm` gate) are left out. They draw or ask; they decide nothing the model covers.
- The `delay` promises and `await` are not modelled. Each awaited call is one sequential step whose outcome is a parameter. Overlapping loads and double submits are not ordered by the code, so no such guarantee is claimed.
- The clock is a parameter. `Date.now()` and `new Date()` become the `newId` and `today` arguments. Id uniqueness is not claimed, because two creates in one millisecond get the same id.
- The client's `datePosted` is an ISO date string; the model uses its timestamp (`Date = int`). Strings that do not parse as dates (`NaN` in the comparator) are not modelled.
- `toLowerCase` and SQLite's `lower` are modelled as ASCII lower-casing. `localeCompare` and the default `sort()` are modelled as code-point order. `trim`/`strip` are modelled as ASCII whitespace only. Unicode case mapping, collation and the wider whitespace set are left out.
- Backend.ILike: `%` and `_` in the user's text are read literally. The source's `ilike` treats them as wildcards, so the model is a plain case-insensitive substring test.
- The backend's JSON payload is a record of optional strings. Fields that are present but not strings (which make `strip()` raise, answering 500) and unknown keys are not modelled. A present `description` of `null` is not modelled either, since it also raises. Nor is `tags` sent as a JSON string: `','.join` then joins its characters, storing `"a,,,b"` for `"a,b"`.
- The 500 replies for database exceptions, session rollbacks, Flask routing, CORS, table creation and seeding (backend/app.py:59-118) are left out, as are the JSON and HTTP transport.
- Backend.GetJobs: SQL guarantees no order for ties, or for anything at all without `ORDER BY`. `IsListing` states only what every admissible answer shares. `GetJobs` computes one such answer from a storage order passed in as `scan`.
- Backend.DecimalString: `str(id)` is modelled only for non-negative keys, which are the only keys SQLite autoincrement hands out.
- The client's mock data set (the initial `jobs` array) is left out. The collection is a parameter of every repository operation.
- Backend.KeywordAgrees: stated only for ASCII title, company and keyword, and a keyword without `%` or `_`. Outside that the two sides differ: `ilike` reads `_` and `%` as wildcards, and JavaScript lower-cases non-ASCII letters that SQLite's `lower` leaves alone.
- The form's `isLoading` prop and the disabled submit button are not modelled. They guard nothing in the logic.

## Findings

| source | as written | input that shows it | evidently intended | confidence | as-written member | corrected member |
|---|---|---|---|---|---|---|
| backend/app.py:26 | `default=datetime.utcnow().date()` calls `utcnow()` once, when the module is imported, so the column default is a fixed date | start the server on day D and create a job on day D+1: it is stored with `date_posted` D | each new job dated on the day it is created (`default=lambda: datetime.utcnow().date()`) | not executed | Backend.CreateJobAsWritten (with Backend.CreatedJobsCarryLoadDay) | Backend.CreateJob (with Backend.CreateThenGet) |

Differences between the client and the server, not bugs but worth knowing:

- The client's location filter is case-sensitive; the server's is not (Backend.LocationCaseDiffers).
- The client matches tags any-of by exact membership; the server matches them all-of by case-insensitive substring of the joined column (Backend.TagModesDiffer).
- The server sorts by `date_desc` when `sortBy` is absent; the client then does not sort at all.
- The keyword filter agrees only on ASCII text without `%` or `_` (Backend.KeywordAgrees). A keyword `_` keeps every non-empty title on the server, and non-ASCII letters are lower-cased by the client but not by SQLite's `lower`.
