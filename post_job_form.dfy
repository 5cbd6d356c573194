/** The job posting form (src/components/employer/PostJobForm.tsx): its initial values, the
    field handlers, the validation loop over the form's entries, and the record it hands to
    `onJobCreated` when editing or creating a job. */
module PostJobForm {
  import opened Wrappers
  import opened Types
  import opened Text

  /** The `formState` object. `jobType` is kept as a tag: both its initial value and the
      four `<Select>` items are tags, so the source's unchecked cast is always right. */
  datatype FormState = FormState(
    title: string, company: string, location: string, description: string,
    requirements: string, salary: string, jobType: JobType)

  /** The text inputs, by their `name` attribute. */
  datatype Field = Title | Company | Location | Description | Requirements | Salary

  /** `editJob?.field || fallback`: the edited job's value unless it is absent or "". */
  function Prefill(editJob: Option<Job>, value: Job -> string, fallback: string): (r: string)
    ensures editJob.Some? && value(editJob.value) != "" ==> r == value(editJob.value)
    ensures editJob.None? || value(editJob.value) == "" ==> r == fallback
  {
    if editJob.Some? && value(editJob.value) != "" then value(editJob.value) else fallback
  }

  /** The initial form: the edited job's values, otherwise "" everywhere except the company
      "TechCorp Inc." and the type "full-time". An edited job's empty text field stays empty,
      since its fallback is "" too; only an empty company becomes "TechCorp Inc.". */
  function InitialForm(editJob: Option<Job>): (f: FormState)
    ensures editJob.None? ==>
      f == FormState("", "TechCorp Inc.", "", "", "", "", FullTime)
    ensures editJob.Some? ==>
      f.jobType == editJob.value.jobType
      && f.title == editJob.value.title
      && (editJob.value.company != "" ==> f.company == editJob.value.company)
      && (editJob.value.company == "" ==> f.company == "TechCorp Inc.")
      && f.location == editJob.value.location
      && f.description == editJob.value.description
      && f.requirements == editJob.value.requirements
      && f.salary == editJob.value.salary
  {
    FormState(
      Prefill(editJob, (j: Job) => j.title, ""),
      Prefill(editJob, (j: Job) => j.company, "TechCorp Inc."),
      Prefill(editJob, (j: Job) => j.location, ""),
      Prefill(editJob, (j: Job) => j.description, ""),
      Prefill(editJob, (j: Job) => j.requirements, ""),
      Prefill(editJob, (j: Job) => j.salary, ""),
      if editJob.Some? then editJob.value.jobType else FullTime)
  }

  /** `{ ...prev, [name]: value }` for a text input. */
  function SetField(f: FormState, field: Field, value: string): (r: FormState)
    ensures field == Title ==> r == f.(title := value)
    ensures field == Company ==> r == f.(company := value)
    ensures field == Location ==> r == f.(location := value)
    ensures field == Description ==> r == f.(description := value)
    ensures field == Requirements ==> r == f.(requirements := value)
    ensures field == Salary ==> r == f.(salary := value)
  {
    match field
    case Title => f.(title := value)
    case Company => f.(company := value)
    case Location => f.(location := value)
    case Description => f.(description := value)
    case Requirements => f.(requirements := value)
    case Salary => f.(salary := value)
  }

  /** `Object.entries(formState)`, in declaration order. */
  function Entries(f: FormState): (r: seq<(string, string)>)
    ensures |r| == 7
  {
    [("title", f.title), ("company", f.company), ("location", f.location),
     ("description", f.description), ("requirements", f.requirements), ("salary", f.salary),
     ("jobType", JobTypeName(f.jobType))]
  }

  /** The position of the first entry whose value is falsy (""), if any. */
  function FirstMissing(entries: seq<(string, string)>): (r: Option<nat>)
    ensures r.Some? ==>
      r.value < |entries| && entries[r.value].1 == ""
      && forall k :: 0 <= k < r.value ==> entries[k].1 != ""
    ensures r.None? <==> forall k :: 0 <= k < |entries| ==> entries[k].1 != ""
  {
    if entries == [] then None
    else if entries[0].1 == "" then Some(0)
    else match FirstMissing(entries[1..])
      case Some(k) => Some(k + 1)
      case None => None
  }

  /** `key.replace(/([A-Z])/g, ' $1').toLowerCase()`: a space before every capital, then
      everything lower-cased. */
  function Humanize(key: string): (r: string)
    ensures forall i :: 0 <= i < |r| ==> !IsAsciiUpper(r[i])
  {
    if key == [] then []
    else (if IsAsciiUpper(key[0]) then [' ', LowerChar(key[0])] else [LowerChar(key[0])])
         + Humanize(key[1..])
  }

  /** The number of ASCII capitals in a key. */
  function Capitals(key: string): nat {
    if key == [] then 0 else (if IsAsciiUpper(key[0]) then 1 else 0) + Capitals(key[1..])
  }

  /** Humanizing adds exactly one space per capital, and a key already in lower case is
      left as it is. */
  lemma {:induction false} HumanizeShape(key: string)
    ensures |Humanize(key)| == |key| + Capitals(key)
    ensures (forall i :: 0 <= i < |key| ==> !IsAsciiUpper(key[i])) ==> Humanize(key) == key
  {
    if key != [] {
      HumanizeShape(key[1..]);
    }
  }

  function Message(key: string): string {
    "Please enter a value for " + Humanize(key)
  }

  /** The one key with a capital: "jobType" reads as "job type". */
  lemma HumanizeJobType()
    ensures Humanize("jobType") == "job type"
  {
    assert "e"[1..] == [] && Humanize("e") == "e";
    assert "pe"[1..] == "e" && Humanize("pe") == "pe";
    assert "ype"[1..] == "pe" && Humanize("ype") == "ype";
    assert "Type"[1..] == "ype" && Humanize("Type") == " type";
    assert "bType"[1..] == "Type" && Humanize("bType") == "b type";
    assert "obType"[1..] == "bType" && Humanize("obType") == "ob type";
    assert "jobType"[1..] == "obType";
  }

  /** The messages name the field as a reader would: "salary" as it is, "jobType" as
      "job type". */
  lemma FieldNames()
    ensures Message("salary") == "Please enter a value for salary"
    ensures Message("jobType") == "Please enter a value for job type"
  {
    HumanizeJobType();
    HumanizeShape("salary");
  }

  /** The job type can never be the missing entry: a tag's name is never "". */
  lemma JobTypeNeverMissing(f: FormState)
    ensures FirstMissing(Entries(f)).Some? ==> FirstMissing(Entries(f)).value < 6
  {
    TagNamesNonEmpty(f.jobType, Pending);
  }

  /** A blank new form stops at the title; with only the title filled it stops at the location,
      since the company is prefilled. */
  lemma BlankFormStopsAtTitle(title: string)
    requires title != ""
    ensures FirstMissing(Entries(InitialForm(None))) == Some(0)
    ensures FirstMissing(Entries(SetField(InitialForm(None), Title, title))) == Some(2)
  {
    assert Entries(SetField(InitialForm(None), Title, title))[2].1 == "";
  }

  /** The edited record: `{ ...editJob, ...formState }`. */
  function Edited(editJob: Job, f: FormState): (j: Job)
    ensures j.id == editJob.id && j.postedDate == editJob.postedDate
    ensures j.employerId == editJob.employerId && j.status == editJob.status
    ensures j.title == f.title && j.company == f.company && j.location == f.location
    ensures j.description == f.description && j.requirements == f.requirements
    ensures j.salary == f.salary && j.jobType == f.jobType
  {
    editJob.(title := f.title, company := f.company, location := f.location,
             description := f.description, requirements := f.requirements, salary := f.salary,
             jobType := f.jobType)
  }

  /** The new record: the clock's id and date, the form fields, the employer and 'active'. */
  function Created(f: FormState, employerId: string, newId: string, now: string): (j: Job)
    ensures j.status == Active && j.employerId == employerId
    ensures j.id == newId && j.postedDate == now
    ensures j.title == f.title && j.company == f.company && j.location == f.location
    ensures j.description == f.description && j.requirements == f.requirements
    ensures j.salary == f.salary && j.jobType == f.jobType
  {
    Job(newId, f.title, f.company, f.location, f.description, f.requirements, f.salary,
        f.jobType, now, employerId, Active)
  }

  /** Submitting a form opened on a job without changing anything gives that job back,
      as long as none of its text fields was "". */
  lemma UnchangedEditIsIdentity(job: Job)
    requires job.title != "" && job.company != "" && job.location != "" && job.description != ""
    requires job.requirements != "" && job.salary != ""
    ensures FirstMissing(Entries(InitialForm(Some(job)))).None?
    ensures Edited(job, InitialForm(Some(job))) == job
  {
    TagNamesNonEmpty(job.jobType, Pending);
  }

  /** What a submission does: show the validation message, or hand a job to `onJobCreated`. */
  datatype SubmitOutcome = ValidationError(message: string) | Emitted(job: Job)

  class PostJobForm {
    const employerId: string
    const editJob: Option<Job>
    var formState: FormState

    constructor (employerId: string, editJob: Option<Job>)
      ensures this.employerId == employerId && this.editJob == editJob
      ensures formState == InitialForm(editJob)
    {
      this.employerId, this.editJob := employerId, editJob;
      formState := InitialForm(editJob);
    }

    /** `handleInputChange`: only the named field changes. */
    method InputChange(field: Field, value: string)
      modifies this
      ensures formState == SetField(old(formState), field, value)
    {
      formState := SetField(formState, field, value);
    }

    /** `handleSelectChange('jobType', value)`. */
    method SelectChange(value: JobType)
      modifies this
      ensures formState == old(formState).(jobType := value)
    {
      formState := formState.(jobType := value);
    }

    /** `handleSubmit`: the entries are checked in order and the first empty one aborts with
        its message; otherwise the edited or the new job is emitted. `newId` and `now` stand
        for `Date.now().toString()` and `new Date().toISOString()`. */
    method Submit(newId: string, now: string) returns (outcome: SubmitOutcome)
      ensures var missing := FirstMissing(Entries(formState));
        (outcome.ValidationError? <==> missing.Some?)
        && (missing.Some? ==> outcome.message == Message(Entries(formState)[missing.value].0))
      ensures outcome.Emitted? && editJob.Some? ==> outcome.job == Edited(editJob.value, formState)
      ensures outcome.Emitted? && editJob.None? ==> outcome.job == Created(formState, employerId, newId, now)
    {
      var entries := Entries(formState);
      var i := 0;
      while i < |entries|
        invariant 0 <= i <= |entries|
        invariant forall k :: 0 <= k < i ==> entries[k].1 != ""
      {
        var (key, value) := entries[i];
        if value == "" {
          return ValidationError(Message(key));
        }
        i := i + 1;
      }
      if editJob.Some? {
        outcome := Emitted(Edited(editJob.value, formState));
      } else {
        outcome := Emitted(Created(formState, employerId, newId, now));
      }
    }
  }
}
