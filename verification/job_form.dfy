/** The add / edit form (`src/components/JobForm.tsx`): its field record, the edit prefill,
    validation with one message per blank required field, the draft built on submit (trimmed
    fields, comma-separated tags), and the per-field change handler. Rendering is not modelled. */
module JobForm {
  import opened Results
  import opened Text
  import opened Seqs
  import opened Jobs

  // ---------------------------------------------------------------- state

  /** `formData`: every field as the text in its input; the job type as the select's value. */
  datatype FormData = FormData(
    title: String,
    company: String,
    location: String,
    jobType: JobType,
    tags: String,
    description: String)

  /** The six inputs of the form. */
  datatype Field = TitleField | CompanyField | LocationField | JobTypeField | TagsField | DescriptionField

  /** `errors`: a message per field; an empty message hides it again. */
  type Errors = map<Field, String>

  datatype FormState = FormState(data: FormData, errors: Errors)

  /** A fresh form: blank text fields and `Full-time`. */
  const EmptyForm: FormData := FormData("", "", "", FullTime, "", "")

  const InitialState: FormState := FormState(EmptyForm, map[])

  /** The text a field shows; the job type shows its spelling. */
  function FieldText(d: FormData, f: Field): String {
    match f
    case TitleField => d.title
    case CompanyField => d.company
    case LocationField => d.location
    case JobTypeField => JobTypeName(d.jobType)
    case TagsField => d.tags
    case DescriptionField => d.description
  }

  /** The error under a field is rendered only when its message is non-empty. */
  predicate Shown(errors: Errors, f: Field) {
    f in errors && errors[f] != ""
  }

  // ---------------------------------------------------------------- prefill

  /** The effect on `job`: editing an existing job copies its fields into the form, the tags
      joined with ", " and a missing description as the empty string. Errors are kept. */
  function Prefill(st: FormState, job: Option<Job>): (r: FormState)
    ensures job.None? ==> r == st
    ensures job.Some? ==> (r.data.title == job.value.title && r.data.company == job.value.company
                           && r.data.location == job.value.location && r.data.jobType == job.value.jobType)
    ensures job.Some? && |job.value.tags| == 0 ==> r.data.tags == ""
    ensures job.Some? && |job.value.tags| == 1 ==> r.data.tags == job.value.tags[0]
    ensures job.Some? ==> r.data.tags == Join(job.value.tags, ", ")
    ensures job.Some? && job.value.description.None? ==> r.data.description == ""
    ensures job.Some? && job.value.description.Some? ==> r.data.description == job.value.description.value
    ensures r.errors == st.errors
  {
    match job
    case None => st
    case Some(j) =>
      st.(data := FormData(j.title, j.company, j.location, j.jobType, Join(j.tags, ", "),
                           j.description.GetOr("")))
  }

  // ---------------------------------------------------------------- validation

  /** The fields that must not be blank after trimming. */
  predicate Required(f: Field) {
    f == TitleField || f == CompanyField || f == LocationField || f == TagsField
  }

  /** The message shown under a blank required field. */
  function RequiredMessage(f: Field): String {
    match f
    case TitleField => "Title is required"
    case CompanyField => "Company is required"
    case LocationField => "Location is required"
    case TagsField => "At least one tag is required"
    case _ => ""
  }

  /** One `if (!field.trim())` step of `validateForm`: a blank field adds its message. */
  function Check(e: Errors, blank: bool, f: Field): (r: Errors)
    ensures forall g :: g in r <==> g in e || (g == f && blank)
    ensures forall g :: g in r ==> r[g] == (if g == f && blank then RequiredMessage(f) else e[g])
  {
    if blank then e[f := RequiredMessage(f)] else e
  }

  /** The four steps of `validateForm` in order, given which required fields are blank. */
  function CheckAll(title: bool, company: bool, location: bool, tags: bool): (r: Errors)
    ensures forall f :: (f in r) <==> ((f == TitleField && title) || (f == CompanyField && company)
                                 || (f == LocationField && location) || (f == TagsField && tags))
    ensures forall f :: f in r ==> r[f] == RequiredMessage(f) && r[f] != ""
  {
    Check(Check(Check(Check(map[], title, TitleField), company, CompanyField), location, LocationField),
          tags, TagsField)
  }

  /** `validateForm`: a fresh error map with a message for each required field whose trimmed
      text is empty, and whether that map has no keys. */
  function ValidateForm(d: FormData): (r: (bool, Errors))
    ensures TitleField in r.1 <==> Blank(d.title)
    ensures CompanyField in r.1 <==> Blank(d.company)
    ensures LocationField in r.1 <==> Blank(d.location)
    ensures TagsField in r.1 <==> Blank(d.tags)
    ensures JobTypeField !in r.1 && DescriptionField !in r.1
    ensures forall f :: f in r.1 ==> r.1[f] == RequiredMessage(f) && r.1[f] != ""
    ensures r.0 <==> r.1 == map[]
    ensures r.0 <==> !Blank(d.title) && !Blank(d.company) && !Blank(d.location) && !Blank(d.tags)
  {
    var e := CheckAll(Trim(d.title) == "", Trim(d.company) == "", Trim(d.location) == "", Trim(d.tags) == "");
    assert e == map[] ==> TitleField !in e && CompanyField !in e && LocationField !in e && TagsField !in e;
    (e == map[], e)
  }

  /** The error map has a key for exactly the required fields whose text trims to nothing. */
  lemma ValidateFormFlagsExactlyBlankRequired(d: FormData, f: Field)
    ensures f in ValidateForm(d).1 <==> Required(f) && Blank(FieldText(d, f))
  {
    if f == JobTypeField || f == DescriptionField {
      assert !Required(f);
    }
  }

  // ---------------------------------------------------------------- tag parsing

  /** `.map(tag => tag.trim())`. */
  function Trimmer(): String -> String {
    (s: String) => Trim(s)
  }

  function TrimAll(ps: seq<String>): seq<String> {
    Map(ps, Trimmer())
  }

  /** `.filter(tag => tag)`: the empty string is falsy. */
  function NonEmpty(): String -> bool {
    (t: String) => t != ""
  }

  /** `tags.split(',').map(tag => tag.trim()).filter(tag => tag)`. */
  function ParseTags(text: String): (r: seq<String>)
    ensures forall i :: 0 <= i < |r| ==> r[i] != "" && Trimmed(r[i]) && ',' !in r[i]
    ensures forall t :: t in r <==> t != "" && exists p :: p in Split(text, ',') && Trim(p) == t
    ensures |r| <= |Split(text, ',')|
  {
    var pieces := Split(text, ',');
    var r := Filter(TrimAll(pieces), NonEmpty());
    ParsedPieces(pieces, r);
    r
  }

  /** What filtering the trimmed pieces keeps: clean tags, each the trim of some piece. */
  lemma ParsedPieces(pieces: seq<String>, r: seq<String>)
    requires forall i :: 0 <= i < |pieces| ==> ',' !in pieces[i]
    requires r == Filter(TrimAll(pieces), NonEmpty())
    ensures forall i :: 0 <= i < |r| ==> r[i] != "" && Trimmed(r[i]) && ',' !in r[i]
    ensures forall t :: t in r <==> t != "" && exists p :: p in pieces && Trim(p) == t
  {
    TrimAllClean(pieces);
    TrimAllMembers(pieces);
    assert forall i :: 0 <= i < |r| ==> r[i] in r;
  }

  /** The trims of comma-free pieces are trimmed and comma-free. */
  lemma TrimAllClean(ps: seq<String>)
    requires forall i :: 0 <= i < |ps| ==> ',' !in ps[i]
    ensures forall t :: t in TrimAll(ps) ==> Trimmed(t) && ',' !in t
  {
    var trimmed := TrimAll(ps);
    forall t | t in trimmed ensures Trimmed(t) && ',' !in t {
      var k :| 0 <= k < |trimmed| && trimmed[k] == t;
      TrimChars(ps[k], ',');
    }
  }

  /** A string is among the trimmed pieces exactly when it is the trim of some piece. */
  lemma TrimAllMembers(ps: seq<String>)
    ensures forall t :: t in TrimAll(ps) <==> exists p :: p in ps && Trim(p) == t
  {
    var trimmed := TrimAll(ps);
    forall t | t in trimmed ensures exists p :: p in ps && Trim(p) == t {
      var k :| 0 <= k < |trimmed| && trimmed[k] == t;
      assert ps[k] in ps;
    }
    forall t | exists p :: p in ps && Trim(p) == t ensures t in trimmed {
      var p :| p in ps && Trim(p) == t;
      var k :| 0 <= k < |ps| && ps[k] == p;
      assert trimmed[k] == t;
    }
  }

  /** Free text typed as comma-separated pieces: the tags are the pieces' trims, in order,
      with the blank pieces dropped. */
  lemma ParseTagsPieces(ps: seq<String>)
    requires |ps| >= 1 && forall i :: 0 <= i < |ps| ==> ',' !in ps[i]
    ensures ParseTags(Join(ps, [','])) == Filter(TrimAll(ps), NonEmpty())
  {
    SplitJoin(ps, ',');
  }

  /** What a user types without the prefill: `"a,b"` gives `["a", "b"]`. */
  lemma ParseTagsPlainText()
    ensures ParseTags("a,b") == ["a", "b"]
  {
    assert "a,b" == Join(["a", "b"], [',']);
    ParseTagsPieces(["a", "b"]);
    TrimPlainPieces();
    KeepNonEmpty("a", "b");
  }

  lemma TrimPlainPieces()
    ensures TrimAll(["a", "b"]) == ["a", "b"]
  {
    TrimLetter("", 'a', "");
    TrimLetter("", 'b', "");
    assert "a" == "" + ['a'] + "";
    assert "b" == "" + ['b'] + "";
    PiecesTrimTo(["a", "b"], ["a", "b"]);
  }

  lemma KeepNonEmpty(a: String, b: String)
    requires a != "" && b != ""
    ensures Filter([a, b], NonEmpty()) == [a, b]
  {
    FilterAll([a, b], NonEmpty());
  }

  /** Padding and an empty piece are dropped: `" a , ,b"` gives `["a", "b"]`. */
  lemma ParseTagsPaddedText()
    ensures ParseTags(" a , ,b") == ["a", "b"]
  {
    assert " a , ,b" == Join([" a ", " ", "b"], [',']);
    ParseTagsPieces([" a ", " ", "b"]);
    TrimPaddedPieces();
    DropBlankMiddle("a", "b");
  }

  lemma TrimPaddedPieces()
    ensures TrimAll([" a ", " ", "b"]) == ["a", "", "b"]
  {
    TrimAllThree(" a ", " ", "b");
    TrimSpacedLetter();
    TrimLoneLetter();
    TrimOneSpace();
  }

  lemma TrimAllThree(x: String, y: String, z: String)
    ensures TrimAll([x, y, z]) == [Trim(x), Trim(y), Trim(z)]
  {
    MapThree(x, y, z, Trimmer());
  }

  lemma TrimSpacedLetter()
    ensures Trim(" a ") == "a"
  {
    assert " a " == " " + ['a'] + " ";
    TrimLetter(" ", 'a', " ");
  }

  lemma TrimLoneLetter()
    ensures Trim("b") == "b"
  {
    assert "b" == "" + ['b'] + "";
    TrimLetter("", 'b', "");
  }

  lemma TrimOneSpace()
    ensures Trim(" ") == ""
  {
    OneSpaceBlank();
  }

  lemma DropBlankMiddle(a: String, b: String)
    requires a != "" && b != ""
    ensures Filter([a, "", b], NonEmpty()) == [a, b]
  {
    var p := NonEmpty();
    assert Filter([b], p) == [b] by { assert [b][1..] == []; }
    assert Filter(["", b], p) == [b] by { assert ["", b][1..] == [b]; }
    assert [a, "", b][1..] == ["", b];
  }

  /** A letter between blanks trims to itself. */
  lemma TrimLetter(w: String, c: char, v: String)
    requires Blank(w) && Blank(v) && !IsSpace(c)
    ensures Trim(w + [c] + v) == [c]
  {
    var s := w + [c] + v;
    assert s[..|w|] == w && s[|w|..|w| + 1] == [c] && s[|w| + 1..] == v;
    TrimDetermined(s, [c], |w|);
  }

  lemma PiecesTrimTo(ps: seq<String>, ts: seq<String>)
    requires |ps| == |ts| && forall i :: 0 <= i < |ps| ==> Trim(ps[i]) == ts[i]
    ensures TrimAll(ps) == ts
  {
  }

  /** A tag that the form hands back unchanged: non-empty, no surrounding blanks, no comma. */
  predicate CleanTag(t: String) {
    t != "" && Trimmed(t) && ',' !in t
  }

  /** A non-empty trimmed string is its own trim, also behind a blank prefix. */
  lemma TrimBlankPrefix(w: String, t: String)
    requires Blank(w) && Trimmed(t) && t != ""
    ensures Trim(w + t) == t
  {
    TrimStartBlankPrefix(w, t);
  }

  /** Every tag is clean. */
  predicate CleanTags(tags: seq<String>) {
    forall i :: 0 <= i < |tags| ==> CleanTag(tags[i])
  }

  lemma CleanTagsTail(tags: seq<String>)
    requires CleanTags(tags) && |tags| >= 1
    ensures CleanTag(tags[0]) && CleanTags(tags[1..])
  {
    assert forall i :: 0 <= i < |tags[1..]| ==> tags[1..][i] == tags[i + 1];
  }

  /** Splitting a ", "-join (behind a blank prefix) on ',' and trimming the pieces gives the tags. */
  lemma {:induction false} TrimSplitJoin(w: String, tags: seq<String>)
    requires Blank(w)
    requires |tags| >= 1
    requires CleanTags(tags)
    ensures TrimAll(Split(w + Join(tags, ", "), ',')) == tags
    decreases |tags|
  {
    CleanTagsTail(tags);
    if |tags| == 1 {
      TrimSplitJoinOne(w, tags);
    } else {
      OneSpaceBlank();
      TrimSplitJoin(" ", tags[1..]);
      TrimSplitJoinCons(w, tags);
    }
  }

  lemma OneSpaceBlank()
    ensures Blank(" ")
  {
    assert IsSpace(" "[0]);
  }

  /** The base case of `TrimSplitJoin`: one tag behind a blank prefix. */
  lemma TrimSplitJoinOne(w: String, tags: seq<String>)
    requires |tags| == 1 && Blank(w) && CleanTag(tags[0])
    ensures TrimAll(Split(w + Join(tags, ", "), ',')) == tags
  {
    var t := tags[0];
    assert tags == [t];
    NoCommaBehindBlank(w, t);
    TrimBlankPrefix(w, t);
    SplitNoSeparator(w + t, ',');
    MapCons(w + t, [], Trimmer());
    assert [w + t] + [] == [w + t];
  }

  /** The inductive step of `TrimSplitJoin`, once the rest is known. */
  lemma TrimSplitJoinCons(w: String, tags: seq<String>)
    requires |tags| >= 2
    requires Blank(w) && CleanTag(tags[0])
    requires TrimAll(Split(" " + Join(tags[1..], ", "), ',')) == tags[1..]
    ensures TrimAll(Split(w + Join(tags, ", "), ',')) == tags
  {
    NoCommaBehindBlank(w, tags[0]);
    TrimBlankPrefix(w, tags[0]);
    JoinRegroup(w, tags);
    TrimSplitJoinStep(w + tags[0], Join(tags[1..], ", "), tags);
  }

  /** A ", "-join of two or more tags, read as the first tag, a comma, and a blank-led rest. */
  lemma JoinRegroup(w: String, tags: seq<String>)
    requires |tags| >= 2
    ensures w + Join(tags, ", ") == (w + tags[0]) + [','] + (" " + Join(tags[1..], ", "))
  {
    var rest := Join(tags[1..], ", ");
    assert Join(tags, ", ") == tags[0] + ", " + rest;
    Regroup(w, tags[0], rest);
  }

  /** The inductive step of `TrimSplitJoin`: the first piece is split off at the first comma. */
  lemma TrimSplitJoinStep(head: String, rest: String, tags: seq<String>)
    requires |tags| >= 1
    requires ',' !in head && Trim(head) == tags[0]
    requires TrimAll(Split(" " + rest, ',')) == tags[1..]
    ensures TrimAll(Split(head + [','] + (" " + rest), ',')) == tags
  {
    SplitFirst(head, ',', " " + rest);
    assert Trimmer()(head) == tags[0];
    MapConsIs(head, Split(" " + rest, ','), Trimmer(), tags);
  }

  lemma Regroup(w: String, a: String, b: String)
    ensures w + (a + ", " + b) == (w + a) + [','] + (" " + b)
  {
    assert ", " == [','] + " ";
  }

  lemma NoCommaBehindBlank(w: String, t: String)
    requires Blank(w) && ',' !in t
    ensures ',' !in w + t
  {
    forall k | 0 <= k < |w| ensures w[k] != ',' { assert IsSpace(w[k]); }
  }

  /** A text without commas whose trim is empty parses to no tag. */
  lemma ParseTagsBlankPiece(text: String)
    requires ',' !in text && Blank(text)
    ensures ParseTags(text) == []
  {
    SplitNoSeparator(text, ',');
    var trimmed := TrimAll([text]);
    assert trimmed == [""];
    assert trimmed == [""] + [];
    assert Filter(trimmed, NonEmpty()) == Filter([], NonEmpty());
  }

  /** Prefill round trip: parsing the ", "-join of clean tags gives back exactly those tags. */
  lemma ParseTagsJoinRoundTrip(tags: seq<String>)
    requires forall i :: 0 <= i < |tags| ==> CleanTag(tags[i])
    ensures ParseTags(Join(tags, ", ")) == tags
  {
    if |tags| == 0 {
      ParseTagsBlankPiece("");
    } else {
      assert "" + Join(tags, ", ") == Join(tags, ", ");
      TrimSplitJoin("", tags);
      FilterAll(tags, NonEmpty());
    }
  }

  /** Validation does not ensure a tag: ", ," is not blank, yet parses to no tag at all. */
  lemma ValidationAllowsNoTags()
    ensures !Blank(", ,")
    ensures ParseTags(", ,") == []
  {
    assert !IsSpace(", ,"[0]);
    assert Split("", ',') == [""];
    assert ","[1..] == "";
    assert Split(",", ',') == ["", ""];
    assert " ,"[1..] == ",";
    assert [' '] + "" == " ";
    assert Split(" ,", ',') == [[' '] + ""] + [""];
    assert ", ,"[1..] == " ,";
    assert Split(", ,", ',') == ["", " ", ""];
    assert Trim(" ") == "" && Trim("") == "";
    var trimmed := TrimAll(["", " ", ""]);
    assert trimmed == [""] + ([""] + [""]);
    assert Filter([""], NonEmpty()) == [];
    FilterAppend([""], [""], NonEmpty());
    FilterAppend([""], [""] + [""], NonEmpty());
  }

  // ---------------------------------------------------------------- submit

  /** `jobData`: trimmed text fields, the job type as selected, the parsed tags and the trimmed
      description (always present, possibly empty). */
  function BuildDraft(d: FormData): (r: Draft)
    ensures r.jobType == d.jobType
    ensures Trimmed(r.title) && Trimmed(r.company) && Trimmed(r.location)
    ensures r.title == "" <==> Blank(d.title)
    ensures r.company == "" <==> Blank(d.company)
    ensures r.location == "" <==> Blank(d.location)
    ensures r.description.Some? && Trimmed(r.description.value)
    ensures forall i :: 0 <= i < |r.tags| ==> CleanTag(r.tags[i])
    ensures r.title == Trim(d.title) && r.company == Trim(d.company) && r.location == Trim(d.location)
    ensures r.tags == ParseTags(d.tags) && r.description == Some(Trim(d.description))
  {
    Draft(Trim(d.title), Trim(d.company), Trim(d.location), d.jobType, ParseTags(d.tags),
          Some(Trim(d.description)))
  }

  /** `handleSubmit`: the errors are replaced by the fresh validation result, and `onSubmit`
      receives a draft only when validation passes. */
  function HandleSubmit(st: FormState): (r: (FormState, Option<Draft>))
    ensures r.0.data == st.data
    ensures r.0.errors == ValidateForm(st.data).1
    ensures r.1.Some? <==> !Blank(st.data.title) && !Blank(st.data.company)
                           && !Blank(st.data.location) && !Blank(st.data.tags)
    ensures r.1.Some? ==> r.1.value.title != "" && r.1.value.company != "" && r.1.value.location != ""
    ensures r.1.Some? ==> r.1.value == BuildDraft(st.data)
  {
    var v := ValidateForm(st.data);
    (st.(errors := v.1), if v.0 then Some(BuildDraft(st.data)) else None)
  }

  /** Editing a job and submitting the prefilled form unchanged hands back that job's draft,
      provided the job is what the form itself would produce: trimmed non-blank fields, at
      least one clean tag, and a trimmed description. */
  lemma PrefillSubmitRoundTrip(st: FormState, j: Job)
    requires Trimmed(j.title) && j.title != ""
    requires Trimmed(j.company) && j.company != ""
    requires Trimmed(j.location) && j.location != ""
    requires |j.tags| >= 1 && forall i :: 0 <= i < |j.tags| ==> CleanTag(j.tags[i])
    requires j.description.Some? && Trimmed(j.description.value)
    ensures HandleSubmit(Prefill(st, Some(j))).1 == Some(DraftOf(j))
  {
    var d := Prefill(st, Some(j)).data;
    assert d == FormData(j.title, j.company, j.location, j.jobType, Join(j.tags, ", "), j.description.value);
    CleanDataPasses(d, j);
    CleanDataDraft(d, j);
  }

  /** A non-empty string with no blank at its start is not blank. */
  lemma StartsSolid(s: String)
    requires |s| > 0 && !IsSpace(s[0])
    ensures !Blank(s)
  {
  }

  /** The form filled from a clean job passes validation. */
  lemma CleanDataPasses(d: FormData, j: Job)
    requires d.title == j.title && d.company == j.company && d.location == j.location
    requires d.tags == Join(j.tags, ", ")
    requires Trimmed(j.title) && j.title != ""
    requires Trimmed(j.company) && j.company != ""
    requires Trimmed(j.location) && j.location != ""
    requires |j.tags| >= 1 && CleanTag(j.tags[0])
    ensures !Blank(d.title) && !Blank(d.company) && !Blank(d.location) && !Blank(d.tags)
  {
    StartsSolid(d.title);
    StartsSolid(d.company);
    StartsSolid(d.location);
    assert d.tags[0] == j.tags[0][0];
    StartsSolid(d.tags);
  }

  /** The draft built from the form filled from a clean job is that job's draft. */
  lemma CleanDataDraft(d: FormData, j: Job)
    requires j.description.Some? && Trimmed(j.description.value)
    requires d == FormData(j.title, j.company, j.location, j.jobType, Join(j.tags, ", "), j.description.value)
    requires Trimmed(j.title) && Trimmed(j.company) && Trimmed(j.location)
    requires forall i :: 0 <= i < |j.tags| ==> CleanTag(j.tags[i])
    ensures BuildDraft(d) == DraftOf(j)
  {
    ParseTagsJoinRoundTrip(j.tags);
    TrimTrimmed(j.title);
    TrimTrimmed(j.company);
    TrimTrimmed(j.location);
    TrimTrimmed(j.description.value);
  }

  // ---------------------------------------------------------------- input change

  /** The form with one field replaced. The job-type select only offers job-type spellings. */
  function SetField(d: FormData, f: Field, value: String): (r: FormData)
    requires f == JobTypeField ==> ParseJobType(value).Some?
    ensures FieldText(r, f) == value
    ensures forall g :: g != f ==> FieldText(r, g) == FieldText(d, g)
  {
    match f
    case TitleField => d.(title := value)
    case CompanyField => d.(company := value)
    case LocationField => d.(location := value)
    case JobTypeField => d.(jobType := ParseJobType(value).value)
    case TagsField => d.(tags := value)
    case DescriptionField => d.(description := value)
  }

  /** The error half of `handleInputChange`: a shown error under the edited field (and only
      that one) is blanked; no key is added or removed. */
  function ClearError(errors: Errors, f: Field): (r: Errors)
    ensures !Shown(r, f)
    ensures r.Keys == errors.Keys
    ensures forall g :: g != f && g in errors ==> r[g] == errors[g]
    ensures !Shown(errors, f) ==> r == errors
  {
    if Shown(errors, f) then errors[f := ""] else errors
  }

  /** `handleInputChange`: the field takes the new value and its error is cleared. */
  function HandleInputChange(st: FormState, f: Field, value: String): (r: FormState)
    requires f == JobTypeField ==> ParseJobType(value).Some?
    ensures r.data == SetField(st.data, f, value)
    ensures r.errors == ClearError(st.errors, f)
  {
    FormState(SetField(st.data, f, value), ClearError(st.errors, f))
  }

  /** When only required fields carry a shown error, as after a submit, editing the four
      required fields hides every error. */
  lemma EditingRequiredFieldsClearsErrors(st: FormState, title: String, company: String,
                                          location: String, tags: String)
    requires forall f :: Shown(st.errors, f) ==> Required(f)
    ensures var s := HandleInputChange(HandleInputChange(HandleInputChange(HandleInputChange(
                       st, TitleField, title), CompanyField, company), LocationField, location), TagsField, tags);
            forall f :: !Shown(s.errors, f)
  {
    ClearingRequiredErrors(st.errors);
  }

  lemma ClearingRequiredErrors(e: Errors)
    requires forall f :: Shown(e, f) ==> Required(f)
    ensures var r := ClearError(ClearError(ClearError(ClearError(e, TitleField), CompanyField), LocationField), TagsField);
            forall f :: !Shown(r, f)
  {
    var a := ClearError(e, TitleField);
    var b := ClearError(a, CompanyField);
    var c := ClearError(b, LocationField);
    var d := ClearError(c, TagsField);
    forall f ensures !Shown(d, f) {
      if f == TagsField {
      } else if f == LocationField {
        assert !Shown(c, f);
      } else if f == CompanyField {
        assert !Shown(b, f);
      } else if f == TitleField {
        assert !Shown(a, f);
      } else {
        assert !Shown(e, f);
      }
    }
  }

  /** A submit leaves shown errors only under required fields. */
  lemma SubmitFlagsOnlyRequired(st: FormState)
    ensures forall f :: Shown(HandleSubmit(st).0.errors, f) ==> Required(f)
  {
  }
}
