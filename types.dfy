/** The shared records of the job board (src/types/index.ts). Every string-literal union of
    the source is a closed enumeration here; references between records are id strings. */
module Types {
  import opened Wrappers

  datatype Role = Seeker | Employer
  datatype JobType = FullTime | PartTime | Contract | Remote
  datatype JobStatus = Active | Closed
  datatype AppStatus = Pending | Reviewed | Interviewed | Offered | Rejected

  datatype User = User(id: string, username: string, email: string, userType: Role, createdAt: string)

  /** A posting; `employerId` names its owner by id only. */
  datatype Job = Job(
    id: string, title: string, company: string, location: string, description: string,
    requirements: string, salary: string, jobType: JobType, postedDate: string,
    employerId: string, status: JobStatus)

  datatype Resume = Resume(
    id: string, userId: string, title: string, fileName: string, uploadDate: string,
    isDefault: bool)

  /** `notes` is an optional property: `None` (absent) differs from `Some("")`. */
  datatype Application = Application(
    id: string, jobId: string, userId: string, resumeId: string, status: AppStatus,
    appliedDate: string, notes: Option<string>)

  datatype EmployerStats = EmployerStats(
    totalJobs: nat, activeJobs: nat, totalApplications: nat, reviewedApplications: nat,
    interviewedCandidates: nat)

  datatype SeekerStats = SeekerStats(
    totalApplications: nat, pendingApplications: nat, reviewedApplications: nat,
    interviews: nat, offers: nat)

  /** The string each tag has in the source's JSON and in its `<Select>` values. */
  function RoleName(r: Role): string {
    match r
    case Seeker => "seeker"
    case Employer => "employer"
  }

  function JobTypeName(t: JobType): string {
    match t
    case FullTime => "full-time"
    case PartTime => "part-time"
    case Contract => "contract"
    case Remote => "remote"
  }

  function JobStatusName(s: JobStatus): string {
    match s
    case Active => "active"
    case Closed => "closed"
  }

  function AppStatusName(s: AppStatus): string {
    match s
    case Pending => "pending"
    case Reviewed => "reviewed"
    case Interviewed => "interviewed"
    case Offered => "offered"
    case Rejected => "rejected"
  }

  /** Reading a job-type string back: only the four exact tags are job types. */
  function ParseJobType(s: string): (r: Option<JobType>)
    ensures r.Some? ==> JobTypeName(r.value) == s
    ensures forall t :: JobTypeName(t) == s ==> r == Some(t)
  {
    if s == "full-time" then Some(FullTime)
    else if s == "part-time" then Some(PartTime)
    else if s == "contract" then Some(Contract)
    else if s == "remote" then Some(Remote)
    else None
  }

  function ParseAppStatus(s: string): (r: Option<AppStatus>)
    ensures r.Some? ==> AppStatusName(r.value) == s
    ensures forall t :: AppStatusName(t) == s ==> r == Some(t)
  {
    if s == "pending" then Some(Pending)
    else if s == "reviewed" then Some(Reviewed)
    else if s == "interviewed" then Some(Interviewed)
    else if s == "offered" then Some(Offered)
    else if s == "rejected" then Some(Rejected)
    else None
  }

  /** Distinct tags have distinct names, so comparing names is comparing tags. */
  lemma TagNamesInjective()
    ensures forall a: JobType, b: JobType :: JobTypeName(a) == JobTypeName(b) ==> a == b
    ensures forall a: AppStatus, b: AppStatus :: AppStatusName(a) == AppStatusName(b) ==> a == b
    ensures forall a: Role, b: Role :: RoleName(a) == RoleName(b) ==> a == b
    ensures forall a: JobStatus, b: JobStatus :: JobStatusName(a) == JobStatusName(b) ==> a == b
  {
    forall a: JobType, b: JobType | JobTypeName(a) == JobTypeName(b) ensures a == b {
      assert ParseJobType(JobTypeName(a)) == Some(a);
    }
    forall a: AppStatus, b: AppStatus | AppStatusName(a) == AppStatusName(b) ensures a == b {
      assert ParseAppStatus(AppStatusName(a)) == Some(a);
    }
  }

  /** Every tag name is non-empty, so a tag is always truthy where the source tests it. */
  lemma TagNamesNonEmpty(t: JobType, s: AppStatus)
    ensures JobTypeName(t) != "" && AppStatusName(s) != ""
  {
  }
}
