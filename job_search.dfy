/** The seeker's job search panel (src/components/seeker/JobSearch.tsx): the filter effect,
    the default-resume choice made when the data arrives, the apply and submit handlers,
    and the relative date label. */
module JobSearch {
  import opened Wrappers
  import opened Types
  import opened Text
  import opened Seqs
  import Api

  // ---- The filter effect ----

  /** The lower-cased term occurs in the lower-cased title, company, description or location. */
  predicate MatchesTerm(job: Job, term: string) {
    Contains(Lower(job.title), term) || Contains(Lower(job.company), term)
    || Contains(Lower(job.description), term) || Contains(Lower(job.location), term)
  }

  function TermMatch(term: string): Job -> bool {
    (j: Job) => MatchesTerm(j, term)
  }

  /** `job.jobType === jobTypeFilter`: the tag's own string against the filter string. */
  function TypeMatch(filter: string): Job -> bool {
    (j: Job) => JobTypeName(j.jobType) == filter
  }

  /** The reference reading of both filters at once: a falsy term or type filter admits
      every job, a truthy one admits only the jobs it matches. */
  predicate Admits(job: Job, searchTerm: string, jobTypeFilter: Option<string>) {
    (searchTerm == "" || MatchesTerm(job, Lower(searchTerm)))
    && (jobTypeFilter.None? || jobTypeFilter.value == "" || JobTypeName(job.jobType) == jobTypeFilter.value)
  }

  function AdmittedBy(searchTerm: string, jobTypeFilter: Option<string>): Job -> bool {
    (j: Job) => Admits(j, searchTerm, jobTypeFilter)
  }

  /** `results` as the effect computes it: the term filter when the term is truthy, then the
      type filter when the filter is truthy. */
  function SearchResults(jobs: seq<Job>, searchTerm: string, jobTypeFilter: Option<string>): (r: seq<Job>)
    ensures |r| <= |jobs|
    ensures searchTerm == "" && jobTypeFilter.None? ==> r == jobs
  {
    var afterTerm := if searchTerm != "" then Filter(jobs, TermMatch(Lower(searchTerm))) else jobs;
    if jobTypeFilter.Some? && jobTypeFilter.value != "" then
      Filter(afterTerm, TypeMatch(jobTypeFilter.value))
    else afterTerm
  }

  /** The chained filters are one order-preserving filter on the conjunction of the two
      conditions, so the result is a subsequence of the job list. */
  lemma SearchIsIntersection(jobs: seq<Job>, searchTerm: string, jobTypeFilter: Option<string>)
    ensures SearchResults(jobs, searchTerm, jobTypeFilter) == Filter(jobs, AdmittedBy(searchTerm, jobTypeFilter))
    ensures IsSubsequence(SearchResults(jobs, searchTerm, jobTypeFilter), jobs)
  {
    var p := AdmittedBy(searchTerm, jobTypeFilter);
    var typed := jobTypeFilter.Some? && jobTypeFilter.value != "";
    if searchTerm != "" && typed {
      var t, q := TermMatch(Lower(searchTerm)), TypeMatch(jobTypeFilter.value);
      FilterFilter(jobs, t, q);
      FilterExtensional(jobs, x => t(x) && q(x), p);
    } else if searchTerm != "" {
      FilterExtensional(jobs, TermMatch(Lower(searchTerm)), p);
    } else if typed {
      FilterExtensional(jobs, TypeMatch(jobTypeFilter.value), p);
    } else {
      FilterKeepsAll(jobs, p);
    }
    FilterIsSubsequence(jobs, p);
  }

  /** A job is in the results exactly when it is in the list and both filters admit it. */
  lemma SearchMembership(jobs: seq<Job>, searchTerm: string, jobTypeFilter: Option<string>, job: Job)
    ensures job in SearchResults(jobs, searchTerm, jobTypeFilter) <==>
      job in jobs
      && (searchTerm == "" || MatchesTerm(job, Lower(searchTerm)))
      && (jobTypeFilter.None? || jobTypeFilter.value == "" || JobTypeName(job.jobType) == jobTypeFilter.value)
  {
    SearchIsIntersection(jobs, searchTerm, jobTypeFilter);
    FilterMembership(jobs, AdmittedBy(searchTerm, jobTypeFilter), job);
  }

  /** The type filter is exact: it keeps a job iff the filter string parses to that job's tag. */
  lemma TypeFilterExact(job: Job, filter: string)
    ensures TypeMatch(filter)(job) <==> ParseJobType(filter) == Some(job.jobType)
  {
  }

  /** The job-type `<Select>`: the "all" item clears the filter, any other item sets it. */
  function SelectJobType(value: string): (r: Option<string>)
    ensures r.None? <==> value == "all"
    ensures r.Some? ==> r.value == value
  {
    if value == "all" then None else Some(value)
  }

  /** Choosing "all" gives the same results as never choosing a type. */
  lemma SelectAllClearsType(jobs: seq<Job>, searchTerm: string)
    ensures SearchResults(jobs, searchTerm, SelectJobType("all")) == SearchResults(jobs, searchTerm, None)
    ensures SearchResults(jobs, "", SelectJobType("all")) == jobs
  {
  }

  /** Searching the fixtures for "Remote" among full-time jobs keeps the remote Backend
      Engineer posting, whose location alone matches the term. */
  lemma RemoteFullTimeKeepsBackendEngineer()
    ensures Api.MockJobs()[1] in SearchResults(Api.MockJobs(), "Remote", SelectJobType("full-time"))
  {
    var job := Api.MockJobs()[1];
    assert Contains(Lower(job.location), Lower("Remote"));
    SearchMembership(Api.MockJobs(), "Remote", Some("full-time"), job);
  }

  // ---- The default-resume choice ----

  /** The first resume marked default, if any (`resumes.find(r => r.isDefault)`). */
  function FirstDefault(resumes: seq<Resume>): (r: Option<nat>)
    ensures r.Some? ==>
      r.value < |resumes| && resumes[r.value].isDefault
      && forall k :: 0 <= k < r.value ==> !resumes[k].isDefault
    ensures r.None? <==> forall k :: 0 <= k < |resumes| ==> !resumes[k].isDefault
  {
    if resumes == [] then None
    else if resumes[0].isDefault then Some(0)
    else match FirstDefault(resumes[1..])
      case Some(i) => Some(i + 1)
      case None => None
  }

  /** The pre-selected resume id after loading: the first default resume, otherwise
      the first resume, otherwise the selection `current` stays as it was. */
  function DefaultResumeChoice(resumes: seq<Resume>, current: string): (r: string)
    ensures (exists i :: 0 <= i < |resumes| && resumes[i].isDefault) ==>
      exists i :: 0 <= i < |resumes| && resumes[i].isDefault && r == resumes[i].id
        && forall k :: 0 <= k < i ==> !resumes[k].isDefault
    ensures (forall i :: 0 <= i < |resumes| ==> !resumes[i].isDefault) && resumes != [] ==>
      r == resumes[0].id
    ensures resumes == [] ==> r == current
  {
    match FirstDefault(resumes)
    case Some(i) => resumes[i].id
    case None => if resumes != [] then resumes[0].id else current
  }

  /** With the resume fixtures of user "1" the first, default resume is chosen. */
  lemma FixtureDefaultResumeChosen(current: string)
    ensures DefaultResumeChoice(Api.MockResumes()[..2], current) == "1"
  {
    assert Api.MockResumes()[..2][0].isDefault;
  }

  // ---- The relative date label ----

  /** One day in milliseconds, `1000 * 60 * 60 * 24`. */
  const DayMs: nat := 1000 * 60 * 60 * 24

  /** `Math.ceil(ms / DayMs)` for a non-negative duration. */
  function CeilDays(ms: nat): (n: nat)
    ensures n == 0 <==> ms == 0
    ensures n > 0 ==> (n - 1) * DayMs < ms <= n * DayMs
  {
    var q := (ms + DayMs - 1) / DayMs;
    assert ms + DayMs - 1 == q * DayMs + (ms + DayMs - 1) % DayMs;
    q
  }

  /** What `formatDate` shows; `LocaleDate` stands for `date.toLocaleDateString()`. */
  datatype DateLabel = Today | Yesterday | DaysAgo(days: nat) | LocaleDate

  /** `formatDate` for a posting at `dateMs` seen at `nowMs`; the day count is the
      ceiling of the absolute difference in days, so any non-zero difference up to
      one day already reads "Yesterday", and the future is treated like the past. */
  function FormatDate(dateMs: int, nowMs: int): (shown: DateLabel)
    ensures shown == Today <==> dateMs == nowMs
    ensures shown == Yesterday <==> 0 < Abs(nowMs - dateMs) <= DayMs
    ensures shown.DaysAgo? <==> DayMs < Abs(nowMs - dateMs) <= 6 * DayMs
    ensures shown.DaysAgo? ==>
      2 <= shown.days <= 6 && (shown.days - 1) * DayMs < Abs(nowMs - dateMs) <= shown.days * DayMs
    ensures shown == LocaleDate <==> Abs(nowMs - dateMs) > 6 * DayMs
  {
    var diffDays := CeilDays(Abs(nowMs - dateMs));
    if diffDays == 0 then Today
    else if diffDays == 1 then Yesterday
    else if diffDays < 7 then DaysAgo(diffDays)
    else LocaleDate
  }

  function Abs(x: int): nat {
    if x < 0 then -x else x
  }

  /** The label of a date is symmetric in past and future. */
  lemma FormatDateSymmetric(dateMs: int, nowMs: int, shift: int)
    ensures FormatDate(dateMs, nowMs) == FormatDate(nowMs, dateMs)
    ensures FormatDate(dateMs + shift, nowMs + shift) == FormatDate(dateMs, nowMs)
  {
  }

  // ---- The panel's state ----

  /** The component state the handlers read and write. `filteredJobs` is what the filter
      effect last stored; every method here ends with the effect having run. */
  class JobSearchPanel {
    var user: Option<User>
    var jobs: seq<Job>
    var filteredJobs: seq<Job>
    var resumes: seq<Resume>
    var searchTerm: string
    var jobTypeFilter: Option<string>
    var selectedJob: Option<Job>
    var selectedResumeId: string
    var isApplying: bool
    var showJobDialog: bool

    /** The filter effect has run on the current term, type filter and jobs. */
    predicate Valid()
      reads this
    {
      filteredJobs == SearchResults(jobs, searchTerm, jobTypeFilter)
    }

    /** The component mounts with empty lists and no selection. */
    constructor (user: Option<User>)
      ensures Valid()
      ensures this.user == user && jobs == [] && filteredJobs == [] && resumes == []
      ensures searchTerm == "" && jobTypeFilter.None? && selectedJob.None?
      ensures selectedResumeId == "" && !isApplying && !showJobDialog
    {
      this.user := user;
      jobs, filteredJobs, resumes := [], [], [];
      searchTerm, jobTypeFilter := "", None;
      selectedJob, selectedResumeId := None, "";
      isApplying, showJobDialog := false, false;
    }

    /** The load effect: nothing without a user; when both reads resolve, the jobs and
        resumes are stored and the default resume is pre-selected; a rejection of either
        read (`Promise.all`) changes nothing but the toast. */
    method Load(jobsRead: Api.Outcome<seq<Job>>, resumesRead: Api.Outcome<seq<Resume>>)
      requires Valid()
      modifies this
      ensures Valid()
      ensures if user.Some? && jobsRead.Resolved? && resumesRead.Resolved? then
          jobs == jobsRead.value && resumes == resumesRead.value
          && selectedResumeId == DefaultResumeChoice(resumesRead.value, old(selectedResumeId))
        else
          jobs == old(jobs) && resumes == old(resumes) && selectedResumeId == old(selectedResumeId)
      ensures user == old(user) && searchTerm == old(searchTerm) && jobTypeFilter == old(jobTypeFilter)
      ensures selectedJob == old(selectedJob) && isApplying == old(isApplying)
      ensures showJobDialog == old(showJobDialog)
    {
      if user.None? {
        return;
      }
      if jobsRead.Resolved? && resumesRead.Resolved? {
        jobs := jobsRead.value;
        filteredJobs := jobsRead.value;
        resumes := resumesRead.value;
        selectedResumeId := DefaultResumeChoice(resumesRead.value, selectedResumeId);
        filteredJobs := SearchResults(jobs, searchTerm, jobTypeFilter);
      }
    }

    /** Typing in the search box, followed by the filter effect. */
    method SetSearchTerm(term: string)
      requires Valid()
      modifies this
      ensures Valid()
      ensures searchTerm == term && filteredJobs == SearchResults(jobs, term, jobTypeFilter)
      ensures user == old(user) && jobs == old(jobs) && resumes == old(resumes)
      ensures jobTypeFilter == old(jobTypeFilter) && selectedJob == old(selectedJob)
      ensures selectedResumeId == old(selectedResumeId) && isApplying == old(isApplying)
      ensures showJobDialog == old(showJobDialog)
    {
      searchTerm := term;
      filteredJobs := SearchResults(jobs, searchTerm, jobTypeFilter);
    }

    /** Picking an item of the job-type `<Select>`, followed by the filter effect. */
    method SelectType(value: string)
      requires Valid()
      modifies this
      ensures Valid()
      ensures jobTypeFilter == SelectJobType(value)
      ensures filteredJobs == SearchResults(jobs, searchTerm, SelectJobType(value))
      ensures user == old(user) && jobs == old(jobs) && resumes == old(resumes)
      ensures searchTerm == old(searchTerm) && selectedJob == old(selectedJob)
      ensures selectedResumeId == old(selectedResumeId) && isApplying == old(isApplying)
      ensures showJobDialog == old(showJobDialog)
    {
      jobTypeFilter := SelectJobType(value);
      filteredJobs := SearchResults(jobs, searchTerm, jobTypeFilter);
    }

    /** `handleApplyForJob`: with a user and at least one resume the dialog opens on `job`;
        otherwise only a toast appears and nothing changes. */
    method ApplyForJob(job: Job) returns (dialogOpened: bool)
      requires Valid()
      modifies this
      ensures Valid()
      ensures dialogOpened <==> user.Some? && resumes != []
      ensures dialogOpened ==> selectedJob == Some(job) && showJobDialog
      ensures !dialogOpened ==> selectedJob == old(selectedJob) && showJobDialog == old(showJobDialog)
      ensures user == old(user) && jobs == old(jobs) && filteredJobs == old(filteredJobs)
      ensures resumes == old(resumes) && searchTerm == old(searchTerm)
      ensures jobTypeFilter == old(jobTypeFilter) && selectedResumeId == old(selectedResumeId)
      ensures isApplying == old(isApplying)
    {
      if user.None? {
        return false;
      }
      if |resumes| == 0 {
        return false;
      }
      selectedJob := Some(job);
      showJobDialog := true;
      return true;
    }

    /** `handleSubmitApplication`: nothing happens unless there is a user, a selected job and
        a truthy resume id; then the dialog closes and the selection is cleared. The result
        is the job that the success toast names. The API call itself is commented out in
        the source, so no application is recorded anywhere. */
    method SubmitApplication() returns (submitted: Option<Job>)
      requires Valid()
      modifies this
      ensures Valid()
      ensures submitted.Some? <==> old(user).Some? && old(selectedJob).Some? && old(selectedResumeId) != ""
      ensures submitted.Some? ==>
        submitted == old(selectedJob) && selectedJob.None? && !showJobDialog && !isApplying
      ensures submitted.None? ==>
        selectedJob == old(selectedJob) && showJobDialog == old(showJobDialog)
        && isApplying == old(isApplying)
      ensures user == old(user) && jobs == old(jobs) && filteredJobs == old(filteredJobs)
      ensures resumes == old(resumes) && searchTerm == old(searchTerm)
      ensures jobTypeFilter == old(jobTypeFilter) && selectedResumeId == old(selectedResumeId)
    {
      if user.None? || selectedJob.None? || selectedResumeId == "" {
        return None;
      }
      isApplying := true;
      submitted := selectedJob;
      showJobDialog := false;
      selectedJob := None;
      isApplying := false;
    }
  }
}
