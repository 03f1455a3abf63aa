/** The Flask service (`backend/app.py`) reduced to its pure parts: payload validation, the
    row a create or update stores, the comma-joined tag column and its decoding in `to_dict`,
    the NotFound replies, and what `GET /api/jobs` selects and how it may order it. The table
    is a map from primary key to row; SQLAlchemy sessions, commits and HTTP are left out. */
module Backend {
  import opened Results
  import opened Text
  import opened Seqs
  import opened Sorting
  import opened Jobs
  import JobService

  // ---------------------------------------------------------------- payload validation

  /** The JSON object a create or update sends; `None` is a missing key. */
  datatype Payload = Payload(
    title: Option<String>,
    company: Option<String>,
    location: Option<String>,
    jobType: Option<String>,
    tags: Option<seq<String>>,
    description: Option<String>)

  /** The problems `validate_data` reports, in the order it checks them. */
  datatype Problem = TitleRequired | CompanyRequired | LocationRequired | JobTypeRequired | InvalidJobType

  function Message(p: Problem): String {
    match p
    case TitleRequired => "Title is required"
    case CompanyRequired => "Company is required"
    case LocationRequired => "Location is required"
    case JobTypeRequired => "Job type is required"
    case InvalidJobType => "Invalid job type"
  }

  /** The position of each check in `validate_data`. */
  function Rank(p: Problem): nat {
    match p
    case TitleRequired => 0
    case CompanyRequired => 1
    case LocationRequired => 2
    case JobTypeRequired => 3
    case InvalidJobType => 4
  }

  /** `valid_job_types`, the same five spellings the client uses. */
  const ValidJobTypes: seq<String> := JobTypeNames

  /** `data.get(key, '').strip()` is empty. */
  predicate Missing(v: Option<String>) {
    Blank(v.GetOr(""))
  }

  /** A payload `validate_data` accepts. */
  predicate Acceptable(data: Payload) {
    && !Missing(data.title) && !Missing(data.company) && !Missing(data.location)
    && !Missing(data.jobType) && data.jobType.value in ValidJobTypes
  }

  /** Each problem at most once, in check order. */
  predicate InCheckOrder(ps: seq<Problem>) {
    forall i, j :: 0 <= i < j < |ps| ==> Rank(ps[i]) < Rank(ps[j])
  }

  /** One check of `validate_data`: `errors.append(...)` when it fails. */
  function Check(acc: seq<Problem>, failed: bool, p: Problem): (r: seq<Problem>)
    requires InCheckOrder(acc)
    requires forall q :: q in acc ==> Rank(q) < Rank(p)
    ensures InCheckOrder(r)
    ensures forall q :: q in r <==> q in acc || (failed && q == p)
  {
    if failed then acc + [p] else acc
  }

  /** The five checks of `validate_data` in order, given which of them fail. */
  function Collect(title: bool, company: bool, location: bool, jobType: bool, invalid: bool): (r: seq<Problem>)
    ensures InCheckOrder(r)
    ensures TitleRequired in r <==> title
    ensures CompanyRequired in r <==> company
    ensures LocationRequired in r <==> location
    ensures JobTypeRequired in r <==> jobType
    ensures InvalidJobType in r <==> invalid
  {
    var e1 := Check([], title, TitleRequired);
    var e2 := Check(e1, company, CompanyRequired);
    var e3 := Check(e2, location, LocationRequired);
    var e4 := Check(e3, jobType, JobTypeRequired);
    Check(e4, invalid, InvalidJobType)
  }

  /** `validate_data`: the problems found, in check order, each once. */
  function ValidateData(data: Payload): (r: seq<Problem>)
    ensures InCheckOrder(r)
    ensures TitleRequired in r <==> Missing(data.title)
    ensures CompanyRequired in r <==> Missing(data.company)
    ensures LocationRequired in r <==> Missing(data.location)
    ensures JobTypeRequired in r <==> Missing(data.jobType)
    ensures InvalidJobType in r <==> data.jobType.None? || data.jobType.value !in ValidJobTypes
    ensures r == [] <==> Acceptable(data)
  {
    var r := Collect(Trim(data.title.GetOr("")) == "", Trim(data.company.GetOr("")) == "",
                     Trim(data.location.GetOr("")) == "", Trim(data.jobType.GetOr("")) == "",
                     data.jobType.None? || data.jobType.value !in ValidJobTypes);
    assert r == [] <==> forall p :: p !in r;
    r
  }

  /** A blank or missing job type always draws both job-type messages. */
  lemma BlankJobTypeTwoMessages(data: Payload)
    requires Missing(data.jobType)
    ensures JobTypeRequired in ValidateData(data) && InvalidJobType in ValidateData(data)
  {
    assert Blank(data.jobType.GetOr(""));
    if data.jobType.Some? {
      var s := data.jobType.value;
      forall n | n in ValidJobTypes ensures s != n {
        assert !IsSpace(n[0]);
      }
    }
  }

  /** An accepted payload names a job type of the enumeration. */
  lemma AcceptedJobTypeParses(data: Payload)
    requires Acceptable(data)
    ensures JobTypeName(ParseJobType(data.jobType.value).value) == data.jobType.value
  {
  }

  function MessageOf(): Problem -> String {
    (p: Problem) => Message(p)
  }

  /** The 400 body, `', '.join(errors)`: the messages, in order, joined with ", ". */
  function ErrorText(ps: seq<Problem>): (r: String)
    ensures r == Join(Map(ps, MessageOf()), ", ")
  {
    if |ps| == 0 then ""
    else if |ps| == 1 then Message(ps[0])
    else
      MapCons(ps[0], ps[1..], MessageOf());
      assert [ps[0]] + ps[1..] == ps;
      Message(ps[0]) + ", " + ErrorText(ps[1..])
  }

  // ---------------------------------------------------------------- rows and the tag column

  /** A row of the `job` table; `tags` is the comma-joined column. */
  datatype Row = Row(
    title: String,
    company: String,
    location: String,
    jobType: String,
    tags: String,
    datePosted: Date,
    description: String)

  /** The table, by primary key. */
  type Table = map<int, Row>

  /** `','.join(tags)`. */
  function EncodeTags(tags: seq<String>): (r: String)
    ensures |tags| == 0 ==> r == ""
    ensures |tags| == 1 ==> r == tags[0]
    ensures |tags| >= 1 ==> |tags[0]| <= |r| && r[..|tags[0]|] == tags[0]
    ensures |tags| >= 2 ==> ',' in r
  {
    if |tags| >= 2 then JoinHasSeparator(tags, ','); Join(tags, [','])
    else Join(tags, [','])
  }

  /** `self.tags.split(',') if self.tags else []`. */
  function DecodeTags(column: String): (r: seq<String>)
    ensures column == "" <==> r == []
    ensures forall i :: 0 <= i < |r| ==> ',' !in r[i]
  {
    if column == "" then [] else Split(column, ',')
  }

  /** Decoding inverts encoding for comma-free tags exactly when the list is not `[""]`, the one
      non-empty list that encodes to the empty column. */
  lemma TagEncodingRoundTrip(tags: seq<String>)
    requires forall i :: 0 <= i < |tags| ==> ',' !in tags[i]
    ensures DecodeTags(EncodeTags(tags)) == tags <==> tags != [""]
  {
    if |tags| >= 2 {
      JoinHasSeparator(tags, ',');
      SplitJoin(tags, ',');
    } else if |tags| == 1 && tags[0] != "" {
      SplitJoin(tags, ',');
    }
  }

  /** A tag with a comma in it comes back as two tags. */
  lemma CommaInTagSplits()
    ensures DecodeTags(EncodeTags(["a,b"])) == ["a", "b"]
  {
    assert EncodeTags(["a,b"]) == "a,b";
    assert "a,b" == "a" + [','] + "b";
    SplitFirst("a", ',', "b");
    SplitNoSeparator("b", ',');
  }

  /** `to_dict`: the JSON object of a row. */
  datatype JobDict = JobDict(
    id: String,
    title: String,
    company: String,
    location: String,
    jobType: String,
    tags: seq<String>,
    datePosted: Date,
    description: String)

  predicate IsDigit(c: char) {
    '0' <= c <= '9'
  }

  /** The number a decimal numeral denotes, as Flask's `<int:job_id>` converter reads the URL
      segment back; a non-digit counts as zero. */
  function DigitsValue(s: String): nat {
    if |s| == 0 then 0
    else DigitsValue(s[..|s| - 1]) * 10 + (if IsDigit(s[|s| - 1]) then s[|s| - 1] as int - '0' as int else 0)
  }

  /** `str(n)` for a non-negative key: the numeral without leading zeros that denotes `n`. */
  function DecimalString(n: nat): (r: String)
    ensures |r| >= 1 && forall i :: 0 <= i < |r| ==> IsDigit(r[i])
    ensures DigitsValue(r) == n
    ensures r[0] == '0' ==> r == "0"
  {
    var d := ['0' + (n % 10) as char];
    if n < 10 then
      assert DigitsValue(d) == DigitsValue(d[..0]) * 10 + n % 10;
      d
    else
      var x := DecimalString(n / 10);
      assert (x + d)[..|x|] == x;
      assert (x + d)[0] == x[0];
      x + d
  }

  /** Distinct keys get distinct JSON ids, so the id a client sends back names one row. */
  lemma DecimalStringInjective(a: nat, b: nat)
    ensures DecimalString(a) == DecimalString(b) <==> a == b
  {
  }

  function ToDict(id: nat, row: Row): (r: JobDict)
    ensures r.id == DecimalString(id) && DigitsValue(r.id) == id
    ensures r.tags == DecodeTags(row.tags)
    ensures r.title == row.title && r.company == row.company && r.location == row.location
    ensures r.jobType == row.jobType && r.datePosted == row.datePosted && r.description == row.description
  {
    JobDict(DecimalString(id), row.title, row.company, row.location, row.jobType,
            DecodeTags(row.tags), row.datePosted, row.description)
  }

  // ---------------------------------------------------------------- responses

  datatype Body = JobBody(job: JobDict) | ErrorBody(error: String) | NoBody

  datatype Response = Response(status: nat, body: Body)

  const NotFoundText: String := "Job not found"
  const NoDataText: String := "No data provided"

  /** The row an accepted payload stores: trimmed text, the job type as sent, the joined tags
      (none when the key is missing), the trimmed description ("" when missing). */
  function RowOf(data: Payload, date: Date): (r: Row)
    requires Acceptable(data)
    ensures Trimmed(r.title) && r.title != "" && Trimmed(r.company) && r.company != ""
    ensures Trimmed(r.location) && r.location != ""
    ensures r.jobType == data.jobType.value && r.jobType in ValidJobTypes
    ensures r.tags == EncodeTags(data.tags.GetOr([]))
    ensures Trimmed(r.description) && r.datePosted == date
    ensures r.title == Trim(data.title.value) && r.company == Trim(data.company.value)
    ensures r.location == Trim(data.location.value) && r.description == Trim(data.description.GetOr(""))
  {
    Row(Trim(data.title.value), Trim(data.company.value), Trim(data.location.value),
        data.jobType.value, EncodeTags(data.tags.GetOr([])), date,
        Trim(data.description.GetOr("")))
  }

  /** The shared front half of `create_job` and `update_job`: the 400 text for a missing body
      or a rejected payload, otherwise the row to store, dated `date`. */
  function Admit(body: Option<Payload>, date: Date): (r: Result<Row, String>)
    ensures r.Ok? <==> body.Some? && Acceptable(body.value)
    ensures r.Ok? ==> r.value == RowOf(body.value, date)
    ensures body.None? ==> r == Err(NoDataText)
    ensures body.Some? && r.Err? ==> r.error == ErrorText(ValidateData(body.value))
  {
    match body
    case None => Err(NoDataText)
    case Some(data) =>
      var problems := ValidateData(data);
      if problems != [] then Err(ErrorText(problems)) else Ok(RowOf(data, date))
  }

  /** `create_job` as written: the column default for `date_posted` was computed once, when the
      module was loaded (`loadDay`), so every job created later carries that day. The body is
      `None` for a missing or empty JSON object. */
  function CreateJobAsWritten(table: Table, body: Option<Payload>, newId: nat, loadDay: Date): (r: (Table, Response))
    requires newId !in table
    ensures body.None? ==> r == (table, Response(400, ErrorBody(NoDataText)))
    ensures body.Some? && !Acceptable(body.value) ==>
              r == (table, Response(400, ErrorBody(ErrorText(ValidateData(body.value)))))
    ensures body.Some? && Acceptable(body.value) ==>
              && r.0 == table[newId := RowOf(body.value, loadDay)]
              && r.1 == Response(201, JobBody(ToDict(newId, RowOf(body.value, loadDay))))
  {
    match Admit(body, loadDay)
    case Err(text) => (table, Response(400, ErrorBody(text)))
    case Ok(row) => (table[newId := row], Response(201, JobBody(ToDict(newId, row))))
  }

  /** On any day after the module was loaded, a job created as written is dated in the past. */
  lemma CreatedJobsCarryLoadDay(table: Table, data: Payload, newId: nat, loadDay: Date, today: Date)
    requires newId !in table && Acceptable(data) && loadDay < today
    ensures CreateJobAsWritten(table, Some(data), newId, loadDay).0[newId].datePosted != today
  {
  }

  /** `create_job` with the date taken when the row is inserted: `NoData` and validation
      failures change nothing; otherwise exactly one row, under the fresh key, is added. */
  function CreateJob(table: Table, body: Option<Payload>, newId: nat, today: Date): (r: (Table, Response))
    requires newId !in table
    ensures r.1.status == 201 <==> body.Some? && Acceptable(body.value)
    ensures r.1.status != 201 ==> r.0 == table && r.1.status == 400
    ensures r.1.status == 201 ==>
              && r.0 == table[newId := RowOf(body.value, today)]
              && r.1.body == JobBody(ToDict(newId, RowOf(body.value, today)))
  {
    match Admit(body, today)
    case Err(text) => (table, Response(400, ErrorBody(text)))
    case Ok(row) => (table[newId := row], Response(201, JobBody(ToDict(newId, row))))
  }

  /** A created job reads back dated today, under its new key, and every other job reads as before. */
  lemma CreateThenGet(table: Table, data: Payload, newId: nat, today: Date)
    requires newId !in table && Acceptable(data)
    ensures var t := CreateJob(table, Some(data), newId, today).0;
            && GetJob(t, newId) == Response(200, JobBody(ToDict(newId, RowOf(data, today))))
            && GetJob(t, newId).body.job.datePosted == today
            && forall k: nat :: k != newId ==> GetJob(t, k) == GetJob(table, k)
  {
  }

  /** The two differ only in the stored date. */
  lemma CreateJobCorrectsOnlyTheDate(table: Table, body: Option<Payload>, newId: nat, day: Date)
    requires newId !in table
    ensures CreateJob(table, body, newId, day) == CreateJobAsWritten(table, body, newId, day)
  {
  }

  /** `get_job`: 404 for an unknown key. */
  function GetJob(table: Table, id: nat): (r: Response)
    ensures id !in table <==> r == Response(404, ErrorBody(NotFoundText))
    ensures id in table ==> r == Response(200, JobBody(ToDict(id, table[id])))
  {
    if id !in table then Response(404, ErrorBody(NotFoundText))
    else Response(200, JobBody(ToDict(id, table[id])))
  }

  /** `update_job`: 404 before the body is looked at; then the create checks; then the row's
      fields are replaced, keeping its key and its date. */
  function UpdateJob(table: Table, id: nat, body: Option<Payload>): (r: (Table, Response))
    ensures id !in table ==> r == (table, Response(404, ErrorBody(NotFoundText)))
    ensures r.1.status == 200 <==> id in table && body.Some? && Acceptable(body.value)
    ensures r.1.status != 200 ==> r.0 == table
    ensures r.1.status == 200 ==>
              && r.0 == table[id := RowOf(body.value, table[id].datePosted)]
              && r.1.body == JobBody(ToDict(id, RowOf(body.value, table[id].datePosted)))
  {
    if id !in table then (table, Response(404, ErrorBody(NotFoundText)))
    else
      match Admit(body, table[id].datePosted)
      case Err(text) => (table, Response(400, ErrorBody(text)))
      case Ok(row) => (table[id := row], Response(200, JobBody(ToDict(id, row))))
  }

  /** `delete_job`: 404 for an unknown key, otherwise the row is gone and 204 is returned. */
  function DeleteJob(table: Table, id: nat): (r: (Table, Response))
    ensures id !in table ==> r == (table, Response(404, ErrorBody(NotFoundText)))
    ensures id in table ==> r.1 == Response(204, NoBody) && r.0 == table - {id}
  {
    if id !in table then (table, Response(404, ErrorBody(NotFoundText)))
    else (table - {id}, Response(204, NoBody))
  }

  /** After a delete, the key reads as NotFound everywhere. */
  lemma DeleteThenNotFound(table: Table, id: nat, body: Option<Payload>)
    requires id in table
    ensures var t := DeleteJob(table, id).0;
            && GetJob(t, id).status == 404
            && DeleteJob(t, id).1.status == 404
            && UpdateJob(t, id, body).1.status == 404
  {
  }

  /** Updating then reading the row returns what the payload asked for, dated as before. */
  lemma UpdateThenGet(table: Table, id: nat, data: Payload)
    requires id in table && Acceptable(data)
    ensures var t := UpdateJob(table, id, Some(data)).0;
            GetJob(t, id) == Response(200, JobBody(ToDict(id, RowOf(data, table[id].datePosted))))
  {
  }

  // ---------------------------------------------------------------- listing

  /** The query string of `GET /api/jobs`; `tags` is `getlist`, empty when absent. */
  datatype Args = Args(
    keyword: Option<String>,
    jobType: Option<String>,
    location: Option<String>,
    tags: seq<String>,
    sortBy: Option<String>)

  /** A parameter the handler acts on: present and non-empty. */
  predicate Truthy(v: Option<String>) {
    v.Some? && v.value != ""
  }

  /** `column.ilike('%pattern%')`, with `%` and `_` in the pattern read literally. */
  predicate ILike(column: String, pattern: String) {
    Contains(Lower(column), Lower(pattern))
  }

  /** The conjunction of the filters `get_jobs` adds: keyword in title or company, exact job
      type, location and every requested tag case-insensitively inside their columns. */
  predicate RowMatches(a: Args, row: Row) {
    && (Truthy(a.keyword) ==> ILike(row.title, a.keyword.value) || ILike(row.company, a.keyword.value))
    && (Truthy(a.jobType) && a.jobType.value != All ==> row.jobType == a.jobType.value)
    && (Truthy(a.location) && a.location.value != All ==> ILike(row.location, a.location.value))
    && (forall t :: t in a.tags ==> ILike(row.tags, t))
  }

  /** A wildcard or empty `jobType` / `location` and an empty `keyword` filter nothing: they
      are the same as leaving the parameter out. */
  lemma WildcardsImposeNothing(a: Args, row: Row)
    ensures RowMatches(a.(keyword := Some("")), row) == RowMatches(a.(keyword := None), row)
    ensures RowMatches(a.(jobType := Some(All)), row) == RowMatches(a.(jobType := None), row)
    ensures RowMatches(a.(jobType := Some("")), row) == RowMatches(a.(jobType := None), row)
    ensures RowMatches(a.(location := Some(All)), row) == RowMatches(a.(location := None), row)
    ensures RowMatches(a.(location := Some("")), row) == RowMatches(a.(location := None), row)
  {
  }

  /** Each requested tag adds one more `ilike` filter on the tag column. */
  lemma {:induction false} RowMatchesAddTag(a: Args, t: String, row: Row)
    ensures RowMatches(a.(tags := a.tags + [t]), row) <==> RowMatches(a, row) && ILike(row.tags, t)
  {
    var b := a.(tags := a.tags + [t]);
    assert forall u :: u in b.tags <==> u in a.tags || u == t;
  }

  /** With no parameter but the sort key, every row matches. */
  lemma NoArgsMatchEveryRow(sortBy: Option<String>, row: Row)
    ensures RowMatches(Args(None, None, None, [], sortBy), row)
  {
  }

  /** The sort `get_jobs` applies: `date_desc` when `sortBy` is absent, none for an unknown key. */
  function SortKey(sortBy: Option<String>): (r: Option<JobService.SortKey>)
    ensures sortBy.None? ==> r == Some(JobService.DateDesc)
    ensures r.Some? ==> JobService.SortKeyName(r.value) == sortBy.GetOr("date_desc")
    ensures sortBy.Some? && r.None? ==> forall k :: JobService.SortKeyName(k) != sortBy.value
  {
    JobService.ParseSortKey(sortBy.GetOr("date_desc"))
  }

  /** A row with its key, as the listing returns it. */
  datatype Stored = Stored(id: int, row: Row)

  /** The `ORDER BY` of each key, read as "may come first". */
  function RowOrder(k: JobService.SortKey): (Stored, Stored) -> bool {
    match k
    case DateDesc => (a: Stored, b: Stored) => a.row.datePosted >= b.row.datePosted
    case DateAsc => (a: Stored, b: Stored) => a.row.datePosted <= b.row.datePosted
    case TitleAsc => (a: Stored, b: Stored) => LexLe(a.row.title, b.row.title)
    case CompanyAsc => (a: Stored, b: Stored) => LexLe(a.row.company, b.row.company)
  }

  lemma RowOrderTotalPreorder(k: JobService.SortKey)
    ensures TotalPreorder(RowOrder(k))
  {
    var le := RowOrder(k);
    match k
    case DateDesc =>
    case DateAsc =>
    case TitleAsc =>
      forall a: Stored, b: Stored ensures le(a, b) || le(b, a) {
        LexLeTotal(a.row.title, b.row.title);
      }
      forall a: Stored, b: Stored, c: Stored | le(a, b) && le(b, c) ensures le(a, c) {
        LexLeTransitive(a.row.title, b.row.title, c.row.title);
      }
    case CompanyAsc =>
      forall a: Stored, b: Stored ensures le(a, b) || le(b, a) {
        LexLeTotal(a.row.company, b.row.company);
      }
      forall a: Stored, b: Stored, c: Stored | le(a, b) && le(b, c) ensures le(a, c) {
        LexLeTransitive(a.row.company, b.row.company, c.row.company);
      }
  }

  /** What `query.all()` may return: every matching row once, nothing else, ordered by the
      selected key; the database is free to order ties and, without a key, everything. */
  ghost predicate IsListing(table: Table, a: Args, out: seq<Stored>) {
    && Distinct(out)
    && (forall e :: e in out <==> e.id in table && e.row == table[e.id] && RowMatches(a, e.row))
    && (SortKey(a.sortBy).Some? ==> SortedBy(out, RowOrder(SortKey(a.sortBy).value)))
  }

  /** The rows in the order the table is stored (`scan`, each key once). */
  function Scan(table: Table, scan: seq<int>): (r: seq<Stored>)
    requires forall i :: 0 <= i < |scan| ==> scan[i] in table
    ensures |r| == |scan|
    ensures forall i :: 0 <= i < |scan| ==> r[i] == Stored(scan[i], table[scan[i]])
  {
    seq(|scan|, i requires 0 <= i < |scan| => Stored(scan[i], table[scan[i]]))
  }

  function MatchTest(a: Args): Stored -> bool {
    (e: Stored) => RowMatches(a, e.row)
  }

  /** The stored rows of the table, each once. */
  ghost predicate Enumerates(table: Table, all: seq<Stored>) {
    && Distinct(all)
    && forall e :: e in all <==> e.id in table && e.row == table[e.id]
  }

  /** A storage order listing every key once scans every row once. */
  lemma ScanEnumerates(table: Table, scan: seq<int>)
    requires Distinct(scan)
    requires forall i :: 0 <= i < |scan| ==> scan[i] in table
    requires forall k :: k in table ==> k in scan
    ensures Enumerates(table, Scan(table, scan))
  {
    var all := Scan(table, scan);
    forall i, j | 0 <= i < j < |all| ensures all[i] != all[j] {
      assert all[i].id == scan[i] && all[j].id == scan[j];
    }
    forall e: Stored | e.id in table && e.row == table[e.id] ensures e in all {
      var i :| 0 <= i < |scan| && scan[i] == e.id;
      assert all[i] == e;
    }
  }

  /** Any rearrangement of the matching rows of an enumeration holds each matching row once. */
  lemma RearrangedMatches(table: Table, a: Args, all: seq<Stored>, out: seq<Stored>)
    requires Enumerates(table, all)
    requires multiset(out) == multiset(Filter(all, MatchTest(a)))
    ensures Distinct(out)
    ensures forall e :: e in out <==> e.id in table && e.row == table[e.id] && RowMatches(a, e.row)
  {
    var m := Filter(all, MatchTest(a));
    DistinctCounts(all);
    forall e ensures multiset(out)[e] <= 1 {
      assert multiset(m)[e] <= multiset(all)[e];
    }
    CountedOnceDistinct(out);
    forall e ensures e in out <==> e in m {
      assert e in out <==> e in multiset(out);
      assert e in m <==> e in multiset(m);
    }
  }

  /** `get_jobs`: the stored rows that pass every filter, in storage order, then stably sorted
      by the selected key. Its answer is a listing in the sense above. */
  function GetJobs(table: Table, a: Args, scan: seq<int>): (out: seq<Stored>)
    requires Distinct(scan)
    requires forall i :: 0 <= i < |scan| ==> scan[i] in table
    requires forall k :: k in table ==> k in scan
    ensures IsListing(table, a, out)
    ensures SortKey(a.sortBy).None? ==> out == Filter(Scan(table, scan), MatchTest(a))
  {
    var all := Scan(table, scan);
    ScanEnumerates(table, scan);
    var m := Filter(all, MatchTest(a));
    var key := SortKey(a.sortBy);
    if key.Some? then
      RowOrderTotalPreorder(key.value);
      StableSortSorted(m, RowOrder(key.value));
      var out := StableSort(m, RowOrder(key.value));
      RearrangedMatches(table, a, all, out);
      out
    else
      RearrangedMatches(table, a, all, m);
      m
  }

  /** All answers to a query hold the same rows; only their order may differ. */
  lemma ListingsArePermutations(table: Table, a: Args, o1: seq<Stored>, o2: seq<Stored>)
    requires IsListing(table, a, o1) && IsListing(table, a, o2)
    ensures multiset(o1) == multiset(o2)
  {
    SameMembersSameMultiset(o1, o2);
  }

  /** Tags are matched all-of: asking for one more tag never adds a row. */
  lemma MoreTagsNarrow(table: Table, a: Args, t: String, wider: seq<Stored>, narrower: seq<Stored>)
    requires IsListing(table, a, wider)
    requires IsListing(table, a.(tags := a.tags + [t]), narrower)
    ensures forall e :: e in narrower ==> e in wider
  {
    forall e | e in narrower ensures e in wider {
      assert forall u :: u in a.tags ==> u in a.tags + [t];
    }
  }

  // ---------------------------------------------------------------- client and server differ

  /** The row a client job is stored as. */
  function RowOfJob(j: Job): Row {
    Row(j.title, j.company, j.location, JobTypeName(j.jobType), EncodeTags(j.tags), j.datePosted,
        j.description.GetOr(""))
  }

  /** Plain ASCII text: where `toLowerCase` and SQLite's `lower` agree. */
  predicate Ascii(s: String) {
    forall i :: 0 <= i < |s| ==> s[i] < 128 as char
  }

  /** No `LIKE` wildcard: where `ilike('%keyword%')` is a substring test. */
  predicate NoWildcards(s: String) {
    '%' !in s && '_' !in s
  }

  /** On ASCII text without wildcards, the keyword filter means the same on both sides. */
  lemma KeywordAgrees(j: Job, keyword: String)
    requires keyword != "" && NoWildcards(keyword)
    requires Ascii(keyword) && Ascii(j.title) && Ascii(j.company)
    ensures JobService.KeywordMatch(keyword, j)
        <==> RowMatches(Args(Some(keyword), None, None, [], None), RowOfJob(j))
  {
  }

  /** The location filter does not: the server ignores case, the client does not. */
  lemma LocationCaseDiffers(j: Job)
    requires j.location == "Austin"
    ensures !JobService.LocationMatch("austin", j)
    ensures RowMatches(Args(None, None, Some("austin"), [], None), RowOfJob(j))
  {
    assert Lower("Austin") == "austin";
    assert Lower("austin") == "austin";
    ContainsSelf("austin");
    assert !OccursAt(j.location, "austin", 0) by { assert j.location[0] != "austin"[0]; }
  }

  /** Nor does the tag filter: a job with one of two requested tags is kept by the client's
      match-any and dropped by the server's match-all. */
  lemma TagModesDiffer(j: Job)
    requires j.tags == ["react"]
    ensures JobService.TagsMatch(["react", "vue"], j)
    ensures !RowMatches(Args(None, None, None, ["react", "vue"], None), RowOfJob(j))
  {
    assert "react" in ["react", "vue"];
    var col := EncodeTags(j.tags);
    assert col == "react";
    assert Lower(col) == "react";
    assert Lower("vue") == "vue";
    forall i | 0 <= i <= |col| ensures !OccursAt(Lower(col), "vue", i) {
      if i + 3 <= 5 {
        assert Lower(col)[i] != 'v';
      }
    }
    assert !ILike(col, "vue");
    assert "vue" in ["react", "vue"];
  }
}
