/** The filter panel (`src/components/JobFilters.tsx`): the edits it makes to the page's filter
    record, the "active filters" test, and the option lists it offers. Rendering is not modelled;
    every handler is a pure function from the current record to the record it hands to
    `onFiltersChange`. */
module JobFilterPanel {
  import opened Text
  import opened Seqs
  import opened Jobs
  import opened JobService

  // ---------------------------------------------------------------- option lists

  datatype SortOption = SortOption(value: String, caption: String)

  /** The sort drop-down, in display order. */
  const SortOptions: seq<SortOption> := [
    SortOption("date_desc", "Newest First"),
    SortOption("date_asc", "Oldest First"),
    SortOption("title_asc", "Title A-Z"),
    SortOption("company_asc", "Company A-Z")
  ]

  /** The job-type drop-down: the wildcard, then the five job types. */
  const JobTypeChoices: seq<String> := [All] + JobTypeNames

  /** The drop-down offers exactly the sort keys the service's switch handles, each once. */
  lemma SortOptionsMatchService()
    ensures forall s :: (exists i :: 0 <= i < |SortOptions| && SortOptions[i].value == s) <==> ParseSortKey(s).Some?
    ensures forall i, j :: 0 <= i < j < |SortOptions| ==> SortOptions[i].value != SortOptions[j].value
  {
    forall s | ParseSortKey(s).Some?
      ensures exists i :: 0 <= i < |SortOptions| && SortOptions[i].value == s
    {
      match ParseSortKey(s).value
      case DateDesc => assert SortOptions[0].value == s;
      case DateAsc => assert SortOptions[1].value == s;
      case TitleAsc => assert SortOptions[2].value == s;
      case CompanyAsc => assert SortOptions[3].value == s;
    }
  }

  /** Every job-type choice but the wildcard is the spelling of a job type, and every job type is offered. */
  lemma JobTypeChoicesMatchEnumeration()
    ensures forall s :: s in JobTypeChoices <==> s == All || ParseJobType(s).Some?
  {
  }

  // ---------------------------------------------------------------- field handlers

  /** `handleKeywordChange`: only the keyword changes. */
  function HandleKeywordChange(f: Filters, keyword: String): (r: Filters)
    ensures r.keyword == keyword
    ensures r.jobType == f.jobType && r.location == f.location && r.tags == f.tags
  {
    f.(keyword := keyword)
  }

  /** `handleJobTypeChange`: only the job type changes. */
  function HandleJobTypeChange(f: Filters, jobType: String): (r: Filters)
    ensures r.jobType == jobType
    ensures r.keyword == f.keyword && r.location == f.location && r.tags == f.tags
  {
    f.(jobType := jobType)
  }

  /** `handleLocationChange`: only the location changes. */
  function HandleLocationChange(f: Filters, location: String): (r: Filters)
    ensures r.location == location
    ensures r.keyword == f.keyword && r.jobType == f.jobType && r.tags == f.tags
  {
    f.(location := location)
  }

  /** Because each handler touches only its own field, the handlers commute. */
  lemma FieldHandlersCommute(f: Filters, k: String, t: String, l: String)
    ensures HandleKeywordChange(HandleJobTypeChange(f, t), k) == HandleJobTypeChange(HandleKeywordChange(f, k), t)
    ensures HandleKeywordChange(HandleLocationChange(f, l), k) == HandleLocationChange(HandleKeywordChange(f, k), l)
    ensures HandleJobTypeChange(HandleLocationChange(f, l), t) == HandleLocationChange(HandleJobTypeChange(f, t), l)
  {
  }

  // ---------------------------------------------------------------- tags

  function Except(tag: String): String -> bool {
    (t: String) => t != tag
  }

  /** `tags.filter(t => t !== tag)`: every occurrence of `tag` goes, the rest keep their order. */
  function Without(tags: seq<String>, tag: String): (r: seq<String>)
    ensures forall t :: t in r <==> t in tags && t != tag
    ensures Subseq(r, tags)
    ensures |r| <= |tags|
    ensures tag !in tags ==> r == tags
  {
    FilterSubseq(tags, Except(tag));
    if tag !in tags then
      FilterAll(tags, Except(tag));
      Filter(tags, Except(tag))
    else Filter(tags, Except(tag))
  }

  /** `handleTagToggle`: an absent tag is appended, a present one is removed everywhere. */
  function HandleTagToggle(f: Filters, tag: String): (r: Filters)
    ensures tag !in f.tags ==> r.tags == f.tags + [tag]
    ensures tag in f.tags ==> r.tags == Without(f.tags, tag) && tag !in r.tags
    ensures r.keyword == f.keyword && r.jobType == f.jobType && r.location == f.location
  {
    var newTags := if tag in f.tags then Without(f.tags, tag) else f.tags + [tag];
    f.(tags := newTags)
  }

  /** Toggling a tag that was not selected, twice, gives back the original record. */
  lemma {:induction false} ToggleTwiceRestores(f: Filters, tag: String)
    requires tag !in f.tags
    ensures HandleTagToggle(HandleTagToggle(f, tag), tag) == f
  {
    var once := HandleTagToggle(f, tag);
    assert tag in once.tags;
    FilterAppend(f.tags, [tag], Except(tag));
    FilterAll(f.tags, Except(tag));
  }

  /** Toggling flips whether the tag is selected. */
  lemma ToggleFlipsMembership(f: Filters, tag: String)
    ensures tag in HandleTagToggle(f, tag).tags <==> tag !in f.tags
  {
  }

  /** `removeTag` (the tag chip's cross): every occurrence goes and nothing is added. */
  function RemoveTag(f: Filters, tag: String): (r: Filters)
    ensures r.tags == Without(f.tags, tag)
    ensures forall t :: t in r.tags <==> t in f.tags && t != tag
    ensures tag !in r.tags
    ensures forall t :: t in r.tags ==> t in f.tags
    ensures tag !in f.tags ==> r == f
    ensures r.keyword == f.keyword && r.jobType == f.jobType && r.location == f.location
  {
    f.(tags := Without(f.tags, tag))
  }

  /** Removing a tag twice is removing it once. */
  lemma RemoveTagIdempotent(f: Filters, tag: String)
    ensures RemoveTag(RemoveTag(f, tag), tag) == RemoveTag(f, tag)
  {
  }

  /** Clicking the cross of each listed tag chip in turn. */
  function RemoveTags(f: Filters, tags: seq<String>): (r: Filters)
    ensures forall t :: t in r.tags <==> t in f.tags && t !in tags
    ensures forall t :: t in tags ==> t !in r.tags
    ensures forall t :: t in r.tags ==> t in f.tags
    ensures Subseq(r.tags, f.tags)
    ensures r.keyword == f.keyword && r.jobType == f.jobType && r.location == f.location
    decreases |tags|
  {
    if |tags| == 0 then
      SubseqRefl(f.tags);
      f
    else
      var once := RemoveTag(f, tags[0]);
      var r := RemoveTags(once, tags[1..]);
      SubseqTrans(r.tags, once.tags, f.tags);
      r
  }

  // ---------------------------------------------------------------- active filters

  /** `hasActiveFilters`: a non-empty keyword, a non-wildcard type or location, or some tag. */
  predicate HasActiveFilters(f: Filters) {
    f.keyword != "" || f.jobType != All || f.location != All || |f.tags| > 0
  }

  /** The record is inactive exactly when it is the reset default. */
  lemma InactiveIffDefault(f: Filters)
    ensures !HasActiveFilters(f) <==> f == DefaultFilters
  {
  }

  /** The chip crosses of `Search`, `Type` and `Location` set the wildcard values. */
  function ClearKeywordChip(f: Filters): (r: Filters)
    ensures r.keyword == DefaultFilters.keyword
    ensures r.jobType == f.jobType && r.location == f.location && r.tags == f.tags
  {
    HandleKeywordChange(f, "")
  }

  function ClearJobTypeChip(f: Filters): (r: Filters)
    ensures r.jobType == DefaultFilters.jobType
    ensures r.keyword == f.keyword && r.location == f.location && r.tags == f.tags
  {
    HandleJobTypeChange(f, All)
  }

  function ClearLocationChip(f: Filters): (r: Filters)
    ensures r.location == DefaultFilters.location
    ensures r.keyword == f.keyword && r.jobType == f.jobType && r.tags == f.tags
  {
    HandleLocationChange(f, All)
  }

  /** Clearing every chip the panel shows deactivates the filters: the result is the default. */
  lemma ClearingEveryChipResets(f: Filters)
    ensures var r := RemoveTags(ClearLocationChip(ClearJobTypeChip(ClearKeywordChip(f))), f.tags);
            !HasActiveFilters(r) && r == DefaultFilters
  {
    NoMembersEmpty(RemoveTags(ClearLocationChip(ClearJobTypeChip(ClearKeywordChip(f))), f.tags).tags);
  }
}
