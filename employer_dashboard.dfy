/** The employer dashboard (src/components/employer/EmployerDashboard.tsx): what it loads,
    the four counters, the overview of recent jobs, and the edits it applies to its job
    list when a job is created, updated or deleted. */
module EmployerDashboard {
  import opened Wrappers
  import opened Types
  import opened Seqs
  import opened Pagination
  import Api

  function SameId(id: string): Job -> bool {
    (j: Job) => j.id == id
  }

  function OtherId(id: string): Job -> bool {
    (j: Job) => j.id != id
  }

  /** `jobs.map(job => job.id === updatedJob.id ? updatedJob : job)`. */
  function ReplaceJob(jobs: seq<Job>, updatedJob: Job): (r: seq<Job>)
    ensures |r| == |jobs|
    ensures forall i :: 0 <= i < |jobs| && jobs[i].id == updatedJob.id ==> r[i] == updatedJob
    ensures forall i :: 0 <= i < |jobs| && jobs[i].id != updatedJob.id ==> r[i] == jobs[i]
  {
    ReplaceWhere(jobs, SameId(updatedJob.id), (j: Job) => updatedJob)
  }

  /** `jobs.filter(job => job.id !== jobId)`. */
  function RemoveJob(jobs: seq<Job>, jobId: string): (r: seq<Job>)
    ensures |r| <= |jobs|
  {
    Filter(jobs, OtherId(jobId))
  }

  /** A delete removes exactly the jobs with that id and keeps the others in their order. */
  lemma RemoveJobExactly(jobs: seq<Job>, jobId: string, j: Job)
    ensures j in RemoveJob(jobs, jobId) <==> j in jobs && j.id != jobId
    ensures IsSubsequence(RemoveJob(jobs, jobId), jobs)
    ensures |RemoveJob(jobs, jobId)| == |jobs| - Count(jobs, SameId(jobId))
  {
    FilterMembership(jobs, OtherId(jobId), j);
    FilterIsSubsequence(jobs, OtherId(jobId));
    CountDisjoint(jobs, SameId(jobId), OtherId(jobId));
    FilterKeepsAll(jobs, x => SameId(jobId)(x) || OtherId(jobId)(x));
  }

  /** Posting a job with a fresh id and then deleting it restores the list. */
  lemma CreateThenDelete(jobs: seq<Job>, newJob: Job)
    requires forall i :: 0 <= i < |jobs| ==> jobs[i].id != newJob.id
    ensures RemoveJob([newJob] + jobs, newJob.id) == jobs
  {
    assert ([newJob] + jobs)[1..] == jobs;
    FilterKeepsAll(jobs, OtherId(newJob.id));
  }

  /** Updating a job and updating it again with the same id keeps only the second version;
      updating with the record already held changes nothing. */
  lemma ReplaceJobLaws(jobs: seq<Job>, first: Job, second: Job)
    requires first.id == second.id
    ensures ReplaceJob(ReplaceJob(jobs, first), second) == ReplaceJob(jobs, second)
    ensures (forall i :: 0 <= i < |jobs| && jobs[i].id == first.id ==> jobs[i] == first) ==>
      ReplaceJob(jobs, first) == jobs
  {
    var a, b := ReplaceJob(ReplaceJob(jobs, first), second), ReplaceJob(jobs, second);
    assert forall i :: 0 <= i < |a| ==> a[i] == b[i];
  }

  /** Applications are loaded only for the first job, and only when there is one. */
  function ApplicationsToFetch(jobs: seq<Job>): (r: Option<string>)
    ensures r.None? <==> jobs == []
    ensures r.Some? ==> r.value == jobs[0].id
  {
    if |jobs| > 0 then Some(jobs[0].id) else None
  }

  /** The counters Total Jobs, Active Jobs, Total Applications and Interviewed:
      `stats?.field || 0`. */
  function Counters(stats: Option<EmployerStats>): (r: seq<nat>)
    ensures |r| == 4
    ensures stats.None? ==> r == [0, 0, 0, 0]
    ensures stats.Some? ==>
      r == [stats.value.totalJobs, stats.value.activeJobs, stats.value.totalApplications,
            stats.value.interviewedCandidates]
  {
    match stats
    case None => [0, 0, 0, 0]
    case Some(s) => [s.totalJobs, s.activeJobs, s.totalApplications, s.interviewedCandidates]
  }

  /** When the network fails, employer "2" sees the fixture jobs 1, 2 and 5, and the
      applications of job "1" are the ones requested. */
  lemma FixtureDashboard(reason: string)
    ensures ApplicationsToFetch(Api.GetEmployerJobs(Api.NetworkFailure(reason), "2").value) == Some("1")
    ensures !ShowViewAll(Api.GetEmployerJobs(Api.NetworkFailure(reason), "2").value)
  {
    Api.EmployerTwoFallback(reason);
  }

  class EmployerDashboard {
    var user: Option<User>
    var stats: Option<EmployerStats>
    var jobs: seq<Job>
    var applications: seq<Application>
    var showPostJobForm: bool

    constructor (user: Option<User>)
      ensures this.user == user && stats.None? && jobs == [] && applications == []
      ensures !showPostJobForm
    {
      this.user := user;
      stats, jobs, applications := None, [], [];
      showPostJobForm := false;
    }

    /** The load effect. Without a user nothing happens. Stats and jobs come from one
        `Promise.all`: if either read rejects, nothing is stored. Otherwise both are stored
        and, when there is a first job, its applications are requested; the result is the
        id they were requested for, and they are stored if that read resolves. */
    method Load(statsRead: Api.Outcome<EmployerStats>, jobsRead: Api.Outcome<seq<Job>>,
                applicationsRead: Api.Outcome<seq<Application>>)
      returns (requestedFor: Option<string>)
      modifies this
      ensures var loaded := old(user).Some? && statsRead.Resolved? && jobsRead.Resolved?;
        (loaded ==> stats == Some(statsRead.value) && jobs == jobsRead.value
                    && requestedFor == ApplicationsToFetch(jobsRead.value))
        && (!loaded ==> stats == old(stats) && jobs == old(jobs) && requestedFor.None?)
      ensures applications ==
        if requestedFor.Some? && applicationsRead.Resolved? then applicationsRead.value
        else old(applications)
      ensures user == old(user) && showPostJobForm == old(showPostJobForm)
    {
      requestedFor := None;
      if user.None? {
        return;
      }
      if statsRead.Resolved? && jobsRead.Resolved? {
        stats := Some(statsRead.value);
        jobs := jobsRead.value;
        if |jobsRead.value| > 0 {
          requestedFor := Some(jobsRead.value[0].id);
          if applicationsRead.Resolved? {
            applications := applicationsRead.value;
          }
        }
      }
    }

    /** The "Post New Job" button. */
    method OpenPostJobForm()
      modifies this
      ensures showPostJobForm
      ensures user == old(user) && stats == old(stats) && jobs == old(jobs)
      ensures applications == old(applications)
    {
      showPostJobForm := true;
    }

    /** `handleJobCreated`: the new job goes first, the others follow in their order, and
        the form closes. */
    method JobCreated(newJob: Job)
      modifies this
      ensures jobs == [newJob] + old(jobs) && !showPostJobForm
      ensures |jobs| == |old(jobs)| + 1 && jobs[0] == newJob && jobs[1..] == old(jobs)
      ensures user == old(user) && stats == old(stats) && applications == old(applications)
    {
      jobs := [newJob] + jobs;
      showPostJobForm := false;
    }

    /** `onJobUpdated` of both job lists. */
    method JobUpdated(updatedJob: Job)
      modifies this
      ensures jobs == ReplaceJob(old(jobs), updatedJob)
      ensures user == old(user) && stats == old(stats) && applications == old(applications)
      ensures showPostJobForm == old(showPostJobForm)
    {
      jobs := ReplaceJob(jobs, updatedJob);
    }

    /** `onJobDeleted` of both job lists. */
    method JobDeleted(jobId: string)
      modifies this
      ensures jobs == RemoveJob(old(jobs), jobId)
      ensures forall j :: j in jobs ==> j.id != jobId
      ensures user == old(user) && stats == old(stats) && applications == old(applications)
      ensures showPostJobForm == old(showPostJobForm)
    {
      jobs := RemoveJob(jobs, jobId);
    }

    /** The overview shows the first five jobs, without a pagination bar. */
    function Overview(): (r: seq<Job>)
      reads this
      ensures |r| <= RecentCount && |r| <= |jobs| && r == jobs[..|r|]
    {
      Recent(jobs)
    }
  }
}
