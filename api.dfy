/** The data façade of src/services/api.ts. Each operation awaits `fetch`, then returns
    `handleResponse(response)` WITHOUT awaiting it. Only a `fetch` that itself throws
    reaches the `catch`. There a read substitutes fixture data and a write rethrows. An
    HTTP error is a rejection that escapes the `try` and reaches the caller. */
module Api {
  import opened Wrappers
  import opened Types
  import opened Seqs

  /** A response that arrived: `ok` with its parsed body, or not ok with the `message`
      property of its error body ("" when the body has none). */
  datatype Response<T> = OkResponse(body: T) | ErrorResponse(message: string)

  /** What `await fetch(...)` produced: it threw (network failure), or it gave a response. */
  datatype Remote<T> = NetworkFailure(reason: string) | Arrived(response: Response<T>)

  /** How the promise an operation returns settles. */
  datatype Outcome<T> = Resolved(value: T) | Thrown(message: string)

  /** `handleResponse`: a non-ok response throws `error.message || 'API Error'`;
      an ok response yields its body. */
  function HandleResponse<T>(response: Response<T>): (r: Outcome<T>)
    ensures r.Resolved? <==> response.OkResponse?
    ensures r.Resolved? ==> r.value == response.body
    ensures r.Thrown? ==> r.message != ""
    ensures r.Thrown? && response.message != "" ==> r.message == response.message
    ensures response.ErrorResponse? && response.message == "" ==> r == Thrown("API Error")
  {
    match response
    case OkResponse(body) => Resolved(body)
    case ErrorResponse(message) => Thrown(if message == "" then "API Error" else message)
  }

  /** The shape of every read: fixture data exactly when `fetch` threw, otherwise what
      `handleResponse` makes of the response (an HTTP error stays a rejection). */
  function ReadWithFallback<T>(remote: Remote<T>, fallback: T): (r: Outcome<T>)
    ensures remote.NetworkFailure? ==> r == Resolved(fallback)
    ensures remote.Arrived? ==> r == HandleResponse(remote.response)
    ensures r.Thrown? <==> remote.Arrived? && remote.response.ErrorResponse?
  {
    match remote
    case NetworkFailure(_) => Resolved(fallback)
    case Arrived(response) => HandleResponse(response)
  }

  /** The shape of every write (createJob, updateJob, deleteJob, applyForJob,
      updateApplicationStatus, uploadResume, deleteResume, setDefaultResume): the
      `catch` rethrows the `fetch` error, so nothing is ever fabricated. */
  function Write<T>(remote: Remote<T>): (r: Outcome<T>)
    ensures r.Resolved? <==> remote.Arrived? && remote.response.OkResponse?
    ensures r.Resolved? ==> r.value == remote.response.body
    ensures remote.NetworkFailure? ==> r == Thrown(remote.reason)
  {
    match remote
    case NetworkFailure(reason) => Thrown(reason)
    case Arrived(response) => HandleResponse(response)
  }

  // ---- Read operations ----

  /** `getJobs`: all fixture jobs when `fetch` throws; the server's list, or its error. */
  function GetJobs(remote: Remote<seq<Job>>): (r: Outcome<seq<Job>>)
    ensures remote.NetworkFailure? ==> r == Resolved(MockJobs())
    ensures r.Thrown? <==> remote.Arrived? && remote.response.ErrorResponse?
    ensures remote.Arrived? && remote.response.OkResponse? ==> r == Resolved(remote.response.body)
  {
    ReadWithFallback(remote, MockJobs())
  }

  /** The first fixture job with the given id (`mockJobs.find(j => j.id === id)`). */
  function FindJob(jobs: seq<Job>, id: string): (r: Option<Job>)
    ensures r.Some? ==> r.value in jobs && r.value.id == id
    ensures r.None? <==> forall j :: j in jobs ==> j.id != id
  {
    if jobs == [] then None
    else if jobs[0].id == id then Some(jobs[0])
    else FindJob(jobs[1..], id)
  }

  /** `getJobById`: on a network failure the fixture with that id, or "Job not found". */
  function GetJobById(remote: Remote<Job>, id: string): (r: Outcome<Job>)
    ensures remote.NetworkFailure? ==>
      (r.Resolved? <==> exists j :: j in MockJobs() && j.id == id)
    ensures remote.NetworkFailure? && r.Resolved? ==> r.value in MockJobs() && r.value.id == id
    ensures remote.NetworkFailure? && r.Thrown? ==> r.message == "Job not found"
    ensures remote.Arrived? ==> r == HandleResponse(remote.response)
  {
    match remote
    case NetworkFailure(_) =>
      (match FindJob(MockJobs(), id)
       case Some(job) => Resolved(job)
       case None => Thrown("Job not found"))
    case Arrived(response) => HandleResponse(response)
  }

  /** `getEmployerJobs`: when `fetch` throws, exactly the fixture jobs of that employer, in
      fixture order. */
  function GetEmployerJobs(remote: Remote<seq<Job>>, employerId: string): (r: Outcome<seq<Job>>)
    ensures remote.NetworkFailure? ==>
      r.Resolved? && IsSubsequence(r.value, MockJobs())
      && forall j :: j in r.value <==> j in MockJobs() && j.employerId == employerId
    ensures r.Thrown? <==> remote.Arrived? && remote.response.ErrorResponse?
    ensures remote.Arrived? && remote.response.OkResponse? ==> r == Resolved(remote.response.body)
  {
    FilterMembers(MockJobs(), ByEmployer(employerId));
    FilterIsSubsequence(MockJobs(), ByEmployer(employerId));
    ReadWithFallback(remote, Filter(MockJobs(), ByEmployer(employerId)))
  }

  /** `getApplications`: when `fetch` throws, exactly the fixture applications of that
      user, in fixture order. */
  function GetApplications(remote: Remote<seq<Application>>, userId: string): (r: Outcome<seq<Application>>)
    ensures remote.NetworkFailure? ==>
      r.Resolved? && IsSubsequence(r.value, MockApplications())
      && forall a :: a in r.value <==> a in MockApplications() && a.userId == userId
    ensures r.Thrown? <==> remote.Arrived? && remote.response.ErrorResponse?
    ensures remote.Arrived? && remote.response.OkResponse? ==> r == Resolved(remote.response.body)
  {
    FilterMembers(MockApplications(), ApplicationOf(userId));
    FilterIsSubsequence(MockApplications(), ApplicationOf(userId));
    ReadWithFallback(remote, Filter(MockApplications(), ApplicationOf(userId)))
  }

  /** `getJobApplications`: when `fetch` throws, exactly the fixture applications to that
      job, in fixture order. */
  function GetJobApplications(remote: Remote<seq<Application>>, jobId: string): (r: Outcome<seq<Application>>)
    ensures remote.NetworkFailure? ==>
      r.Resolved? && IsSubsequence(r.value, MockApplications())
      && forall a :: a in r.value <==> a in MockApplications() && a.jobId == jobId
    ensures r.Thrown? <==> remote.Arrived? && remote.response.ErrorResponse?
    ensures remote.Arrived? && remote.response.OkResponse? ==> r == Resolved(remote.response.body)
  {
    FilterMembers(MockApplications(), ApplicationFor(jobId));
    FilterIsSubsequence(MockApplications(), ApplicationFor(jobId));
    ReadWithFallback(remote, Filter(MockApplications(), ApplicationFor(jobId)))
  }

  /** `getUserResumes`: when `fetch` throws, exactly the fixture resumes of that user, in
      fixture order. */
  function GetUserResumes(remote: Remote<seq<Resume>>, userId: string): (r: Outcome<seq<Resume>>)
    ensures remote.NetworkFailure? ==>
      r.Resolved? && IsSubsequence(r.value, MockResumes())
      && forall x :: x in r.value <==> x in MockResumes() && x.userId == userId
    ensures r.Thrown? <==> remote.Arrived? && remote.response.ErrorResponse?
    ensures remote.Arrived? && remote.response.OkResponse? ==> r == Resolved(remote.response.body)
  {
    FilterMembers(MockResumes(), ResumeOf(userId));
    FilterIsSubsequence(MockResumes(), ResumeOf(userId));
    ReadWithFallback(remote, Filter(MockResumes(), ResumeOf(userId)))
  }

  /** `getEmployerStats`: when `fetch` throws, the fixture statistics, whatever the id. */
  function GetEmployerStats(remote: Remote<EmployerStats>, employerId: string): (r: Outcome<EmployerStats>)
    ensures remote.NetworkFailure? ==> r == Resolved(EmployerStats(3, 3, 4, 2, 1))
    ensures r.Thrown? <==> remote.Arrived? && remote.response.ErrorResponse?
    ensures remote.Arrived? && remote.response.OkResponse? ==> r == Resolved(remote.response.body)
  {
    ReadWithFallback(remote, MockEmployerStats(employerId))
  }

  /** `getSeekerStats`: when `fetch` throws, the fixture statistics, whatever the id. */
  function GetSeekerStats(remote: Remote<SeekerStats>, userId: string): (r: Outcome<SeekerStats>)
    ensures remote.NetworkFailure? ==> r == Resolved(SeekerStats(4, 1, 1, 1, 0))
    ensures r.Thrown? <==> remote.Arrived? && remote.response.ErrorResponse?
    ensures remote.Arrived? && remote.response.OkResponse? ==> r == Resolved(remote.response.body)
  {
    ReadWithFallback(remote, MockSeekerStats(userId))
  }

  /** The scope conditions of the fallback filters. */
  function ByEmployer(employerId: string): Job -> bool {
    (j: Job) => j.employerId == employerId
  }

  function ApplicationOf(userId: string): Application -> bool {
    (a: Application) => a.userId == userId
  }

  function ApplicationFor(jobId: string): Application -> bool {
    (a: Application) => a.jobId == jobId
  }

  function ResumeOf(userId: string): Resume -> bool {
    (r: Resume) => r.userId == userId
  }

  // ---- Properties of the reads ----

  /** For employer "2" the fallback is fixture jobs 1, 2 and 5, in that order. */
  lemma EmployerTwoFallback(reason: string)
    ensures var r := GetEmployerJobs(NetworkFailure(reason), "2");
      r.Resolved? && r.value == [MockJobs()[0], MockJobs()[1], MockJobs()[4]]
      && r.value[0].id == "1" && r.value[1].id == "2" && r.value[2].id == "5"
  {
    var js, p := MockJobs(), ByEmployer("2");
    assert p(js[0]) && p(js[1]) && !p(js[2]) && !p(js[3]) && p(js[4]);
    FilterKeepsFirstSecondFifth(js, p);
  }

  /** The job-applications fallback for job "5" is fixture applications 3 and 5. */
  lemma JobFiveApplicationsFallback(reason: string)
    ensures var r := GetJobApplications(NetworkFailure(reason), "5");
      r.Resolved? && r.value == [MockApplications()[2], MockApplications()[4]]
      && r.value[0].id == "3" && r.value[1].id == "5"
  {
    var apps, p := MockApplications(), ApplicationFor("5");
    assert !p(apps[0]) && !p(apps[1]) && p(apps[2]) && !p(apps[3]) && p(apps[4]);
    FilterKeepsThirdFifth(apps, p);
  }

  /** The applications fallback for user "1" is fixture applications 1 to 4. */
  lemma UserOneApplicationsFallback(reason: string)
    ensures var r := GetApplications(NetworkFailure(reason), "1");
      r.Resolved? && r.value == MockApplications()[..4]
  {
    var apps, p := MockApplications(), ApplicationOf("1");
    assert p(apps[0]) && p(apps[1]) && p(apps[2]) && p(apps[3]) && !p(apps[4]);
    FilterDropsFifth(apps, p);
  }

  /** The resumes fallback for user "1" is fixture resumes 1 and 2. */
  lemma UserOneResumesFallback(reason: string)
    ensures var r := GetUserResumes(NetworkFailure(reason), "1");
      r.Resolved? && r.value == MockResumes()[..2]
  {
  }

  // The three selection patterns of the five-element fixtures above, shown once for any
  // five elements, so that the fixtures themselves are never sliced.

  lemma FilterKeepsFirstSecondFifth<T>(s: seq<T>, p: T -> bool)
    requires |s| == 5 && p(s[0]) && p(s[1]) && !p(s[2]) && !p(s[3]) && p(s[4])
    ensures Filter(s, p) == [s[0], s[1], s[4]]
  {
    assert Filter(s[4..], p) == [s[4]];
    assert Filter(s[2..], p) == [s[4]];
    assert Filter(s[1..], p) == [s[1], s[4]];
  }

  lemma FilterKeepsThirdFifth<T>(s: seq<T>, p: T -> bool)
    requires |s| == 5 && !p(s[0]) && !p(s[1]) && p(s[2]) && !p(s[3]) && p(s[4])
    ensures Filter(s, p) == [s[2], s[4]]
  {
    assert Filter(s[4..], p) == [s[4]];
    assert Filter(s[2..], p) == [s[2], s[4]];
  }

  lemma FilterDropsFifth<T>(s: seq<T>, p: T -> bool)
    requires |s| == 5 && p(s[0]) && p(s[1]) && p(s[2]) && p(s[3]) && !p(s[4])
    ensures Filter(s, p) == s[..4]
  {
    assert Filter(s[4..], p) == [];
    assert Filter(s[3..], p) == [s[3]];
    assert Filter(s[2..], p) == [s[2], s[3]];
    assert Filter(s[1..], p) == [s[1], s[2], s[3]];
    assert s[..4] == [s[0], s[1], s[2], s[3]];
  }

  /** A job id outside the fixtures is "Job not found" when the network fails. */
  lemma UnknownJobNotFound(reason: string)
    ensures GetJobById(NetworkFailure(reason), "6") == Thrown("Job not found")
    ensures GetJobById(NetworkFailure(reason), "3") == Resolved(MockJobs()[2])
  {
    var js := MockJobs();
    assert FindJob(js[4..], "6") == None;
    assert FindJob(js[2..], "6") == None;
    assert FindJob(js, "6") == None;
    assert FindJob(js[2..], "3") == Some(js[2]);
    assert FindJob(js, "3") == Some(js[2]);
  }

  /** An HTTP error escapes the `try`: no read ever substitutes fixtures for it. */
  lemma HttpErrorsPropagate(message: string, jobId: string, userId: string)
    ensures GetJobs(Arrived(ErrorResponse(message))).Thrown?
    ensures GetJobById(Arrived(ErrorResponse(message)), jobId).Thrown?
    ensures GetEmployerJobs(Arrived(ErrorResponse(message)), userId).Thrown?
    ensures GetApplications(Arrived(ErrorResponse(message)), userId).Thrown?
    ensures GetJobApplications(Arrived(ErrorResponse(message)), jobId).Thrown?
    ensures GetUserResumes(Arrived(ErrorResponse(message)), userId).Thrown?
    ensures GetEmployerStats(Arrived(ErrorResponse(message)), userId).Thrown?
    ensures GetSeekerStats(Arrived(ErrorResponse(message)), userId).Thrown?
  {
  }

  /** Every fixture application is to a fixture job. */
  lemma FixtureApplicationsToFixtureJobs()
    ensures forall i :: 0 <= i < |MockApplications()| ==>
      exists k :: 0 <= k < |MockJobs()| && MockJobs()[k].id == MockApplications()[i].jobId
  {
    var apps, jobs := MockApplications(), MockJobs();
    assert apps[0].jobId == jobs[0].id && apps[1].jobId == jobs[1].id && apps[2].jobId == jobs[4].id;
    assert apps[3].jobId == jobs[2].id && apps[4].jobId == jobs[4].id;
  }

  /** In the resume fixtures no user has two default resumes. */
  lemma MockResumesOneDefaultPerUser()
    ensures forall i, j ::
      (0 <= i < j < |MockResumes()| && MockResumes()[i].isDefault && MockResumes()[j].isDefault)
      ==> MockResumes()[i].userId != MockResumes()[j].userId
  {
  }

  // ---- Fixtures ----

  // The long fixture texts, named so that the solver only unfolds them where needed.
  const Job1Description := "We are looking for an experienced Frontend Developer to join our team."
  const Job1Requirements := "5+ years of experience with React, TypeScript, and modern frontend frameworks."
  const Job2Description := "Join our backend team to build scalable APIs and services."
  const Job2Requirements := "Experience with Node.js, Python, and database design."
  const Job3Description := "Help us build and maintain our cloud infrastructure."
  const Job3Requirements := "Experience with AWS, Docker, Kubernetes, and CI/CD pipelines."
  const Job4Description := "Create beautiful and intuitive user interfaces for our products."
  const Job4Requirements := "Portfolio showcasing UX/UI work, experience with Figma and Adobe Suite."
  const Job5Description := "Analyze large datasets and build predictive models."
  const Job5Requirements := "Experience with Python, R, and machine learning frameworks."
  const Application1Notes := "Strong candidate, schedule interview"
  const Application3Notes := "Great interview, considering offer"
  const Application4Notes := "Not enough experience with required technologies"


  /** The five fixture jobs, with ids "1" to "5". */
  function MockJobs(): (jobs: seq<Job>)
    ensures |jobs| == 5
    ensures jobs[0].id == "1" && jobs[1].id == "2" && jobs[2].id == "3" && jobs[3].id == "4" && jobs[4].id == "5"
  {
    [ Job("1", "Senior Frontend Developer", "TechCorp Inc.", "New York, NY",
          Job1Description,
          Job1Requirements,
          "$120,000 - $150,000", FullTime, "2023-06-15T00:00:00Z", "2", Active),
      Job("2", "Backend Engineer", "TechCorp Inc.", "Remote",
          Job2Description,
          Job2Requirements,
          "$110,000 - $140,000", FullTime, "2023-06-10T00:00:00Z", "2", Active),
      Job("3", "DevOps Specialist", "CloudSystems LLC", "Seattle, WA",
          Job3Description,
          Job3Requirements,
          "$130,000 - $160,000", FullTime, "2023-06-05T00:00:00Z", "3", Active),
      Job("4", "UX/UI Designer", "DesignHub", "San Francisco, CA",
          Job4Description,
          Job4Requirements,
          "$90,000 - $120,000", FullTime, "2023-06-01T00:00:00Z", "3", Active),
      Job("5", "Data Scientist", "TechCorp Inc.", "Boston, MA",
          Job5Description,
          Job5Requirements,
          "$125,000 - $155,000", FullTime, "2023-05-28T00:00:00Z", "2", Active) ]
  }

  /** The five fixture applications, with ids "1" to "5". */
  function MockApplications(): (apps: seq<Application>)
    ensures |apps| == 5
    ensures apps[0].id == "1" && apps[1].id == "2" && apps[2].id == "3" && apps[3].id == "4" && apps[4].id == "5"
  {
    [ Application("1", "1", "1", "1", Reviewed, "2023-06-16T00:00:00Z",
                  Some(Application1Notes)),
      Application("2", "2", "1", "1", Pending, "2023-06-17T00:00:00Z", None),
      Application("3", "5", "1", "2", Interviewed, "2023-06-10T00:00:00Z",
                  Some(Application3Notes)),
      Application("4", "3", "1", "1", Rejected, "2023-05-30T00:00:00Z",
                  Some(Application4Notes)),
      Application("5", "5", "3", "3", Pending, "2023-06-15T00:00:00Z", None) ]
  }

  /** The three fixture resumes, with ids "1" to "3". */
  function MockResumes(): (resumes: seq<Resume>)
    ensures |resumes| == 3
    ensures resumes[0].id == "1" && resumes[1].id == "2" && resumes[2].id == "3"
  {
    [ Resume("1", "1", "Software Developer Resume", "resume_software_dev.pdf",
             "2023-05-15T00:00:00Z", true),
      Resume("2", "1", "Data Science Resume", "resume_data_science.pdf",
             "2023-05-20T00:00:00Z", false),
      Resume("3", "3", "Frontend Developer Resume", "resume_frontend.pdf",
             "2023-06-01T00:00:00Z", true) ]
  }

  /** The employer id is ignored by the fixture. Its numbers are consistent the way the
      backend's are: active jobs among all jobs, reviewed and interviewed among all
      applications. */
  function MockEmployerStats(employerId: string): (s: EmployerStats)
    ensures s.activeJobs <= s.totalJobs
    ensures s.reviewedApplications + s.interviewedCandidates <= s.totalApplications
  {
    EmployerStats(3, 3, 4, 2, 1)
  }

  /** The user id is ignored by the fixture. Its per-status counts fit within its total. */
  function MockSeekerStats(userId: string): (s: SeekerStats)
    ensures s.pendingApplications + s.reviewedApplications + s.interviews + s.offers <= s.totalApplications
  {
    SeekerStats(4, 1, 1, 1, 0)
  }
}
