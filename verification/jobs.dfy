/** The records of `src/types/Job.ts`: a job posting, the draft the form submits, the partial
    update the repository accepts, and the filter record the page keeps. */
module Jobs {
  import opened Results
  import opened Text

  /** `Job['jobType']`, a closed enumeration. */
  datatype JobType = FullTime | PartTime | Contract | Internship | Remote

  /** The spelling of each job type on the wire and in the filter drop-down. */
  function JobTypeName(t: JobType): String {
    match t
    case FullTime => "Full-time"
    case PartTime => "Part-time"
    case Contract => "Contract"
    case Internship => "Internship"
    case Remote => "Remote"
  }

  /** Reads a job type back from its spelling; anything else is not a job type. */
  function ParseJobType(s: String): (r: Option<JobType>)
    ensures r.Some? ==> JobTypeName(r.value) == s
    ensures r.None? ==> forall t :: JobTypeName(t) != s
  {
    if s == "Full-time" then Some(FullTime)
    else if s == "Part-time" then Some(PartTime)
    else if s == "Contract" then Some(Contract)
    else if s == "Internship" then Some(Internship)
    else if s == "Remote" then Some(Remote)
    else None
  }

  /** Spelling a job type and reading it back is the identity. */
  lemma JobTypeRoundTrip(t: JobType)
    ensures ParseJobType(JobTypeName(t)) == Some(t)
  {
  }

  /** The five spellings, in the order the sources list them. */
  const JobTypeNames: seq<String> := ["Full-time", "Part-time", "Contract", "Internship", "Remote"]

  /** The wildcard value of the job-type and location filters. */
  const All: String := "All"

  /** A posting date, as the millisecond timestamp `new Date(datePosted).getTime()` yields. */
  type Date = int

  datatype Job = Job(
    id: String,
    title: String,
    company: String,
    location: String,
    jobType: JobType,
    tags: seq<String>,
    datePosted: Date,
    description: Option<String>)

  /** `Omit<Job, 'id' | 'datePosted'>`: a job before the repository stamps it. */
  datatype Draft = Draft(
    title: String,
    company: String,
    location: String,
    jobType: JobType,
    tags: seq<String>,
    description: Option<String>)

  /** `Partial<Job>`: every field may be omitted (`None`). */
  datatype JobPatch = JobPatch(
    id: Option<String>,
    title: Option<String>,
    company: Option<String>,
    location: Option<String>,
    jobType: Option<JobType>,
    tags: Option<seq<String>>,
    datePosted: Option<Date>,
    description: Option<String>)

  /** The draft part of a job: everything but the id and the posting date. */
  function DraftOf(j: Job): Draft {
    Draft(j.title, j.company, j.location, j.jobType, j.tags, j.description)
  }

  /** A draft with the id and date the repository assigns. */
  function Stamp(d: Draft, id: String, date: Date): (j: Job)
    ensures DraftOf(j) == d
    ensures j.id == id && j.datePosted == date
  {
    Job(id, d.title, d.company, d.location, d.jobType, d.tags, date, d.description)
  }

  /** A full draft sent as a partial update: every draft field present, id and date omitted.
      A draft without a description omits that key. */
  function PatchOf(d: Draft): JobPatch {
    JobPatch(None, Some(d.title), Some(d.company), Some(d.location), Some(d.jobType),
             Some(d.tags), None, d.description)
  }

  /** `JobFilters`: the filter record the page keeps and the filter panel edits. */
  datatype Filters = Filters(keyword: String, jobType: String, location: String, tags: seq<String>)

  /** The record the page starts with and `handleResetFilters` restores. */
  const DefaultFilters: Filters := Filters("", All, All, [])

  /** The sort key the page starts with and `handleResetFilters` restores. */
  const DefaultSortBy: String := "date_desc"
}
