/** The seeker dashboard (src/components/seeker/SeekerDashboard.tsx): what it loads, the
    counters and the status chart, the overview of recent applications, the resume list's
    buttons, and the append of an uploaded resume. */
module SeekerDashboard {
  import opened Wrappers
  import opened Types
  import opened Pagination
  import Api

  /** One slice of the application status chart. */
  datatype ChartSlice = ChartSlice(name: string, value: nat)

  /** `applicationChartData`: Pending, Reviewed, Interviews and Offers from the stats, in that
      order, and no slices at all while the stats are null. */
  function ChartData(stats: Option<SeekerStats>): (r: seq<ChartSlice>)
    ensures stats.None? <==> r == []
    ensures stats.Some? ==>
      |r| == 4
      && r[0] == ChartSlice("Pending", stats.value.pendingApplications)
      && r[1] == ChartSlice("Reviewed", stats.value.reviewedApplications)
      && r[2] == ChartSlice("Interviews", stats.value.interviews)
      && r[3] == ChartSlice("Offers", stats.value.offers)
  {
    match stats
    case None => []
    case Some(s) =>
      [ChartSlice("Pending", s.pendingApplications), ChartSlice("Reviewed", s.reviewedApplications),
       ChartSlice("Interviews", s.interviews), ChartSlice("Offers", s.offers)]
  }

  /** The counters Total Applications, Pending Review, Interviews and Job Offers:
      `stats?.field || 0`. */
  function Counters(stats: Option<SeekerStats>): (r: seq<nat>)
    ensures |r| == 4
    ensures stats.None? ==> r == [0, 0, 0, 0]
    ensures stats.Some? ==>
      r == [stats.value.totalApplications, stats.value.pendingApplications, stats.value.interviews,
            stats.value.offers]
  {
    match stats
    case None => [0, 0, 0, 0]
    case Some(s) => [s.totalApplications, s.pendingApplications, s.interviews, s.offers]
  }

  /** The "Set as Default" button appears only on a resume that is not the default, that is,
      exactly where making the resume the default would change it. */
  function SetDefaultOffered(resume: Resume): (b: bool)
    ensures b <==> resume.(isDefault := true) != resume
  {
    !resume.isDefault
  }

  /** No user has two default resumes. */
  predicate AtMostOneDefaultPerUser(resumes: seq<Resume>) {
    forall i, j :: 0 <= i < j < |resumes| && resumes[i].isDefault && resumes[j].isDefault ==>
      resumes[i].userId != resumes[j].userId
  }

  /** Appending a resume that is not a default keeps at most one default per user, and the
      list then offers "Set as Default" on that resume. */
  lemma UploadKeepsOneDefault(resumes: seq<Resume>, newResume: Resume)
    requires AtMostOneDefaultPerUser(resumes) && !newResume.isDefault
    ensures AtMostOneDefaultPerUser(resumes + [newResume])
    ensures SetDefaultOffered((resumes + [newResume])[|resumes|])
  {
  }

  /** The resume fixtures of user "1" offer "Set as Default" only on their second resume. */
  lemma FixtureSetDefaultButtons(reason: string)
    ensures var rs := Api.GetUserResumes(Api.NetworkFailure(reason), "1").value;
      |rs| == 2 && !SetDefaultOffered(rs[0]) && SetDefaultOffered(rs[1])
  {
    Api.UserOneResumesFallback(reason);
  }

  class SeekerDashboard {
    var user: Option<User>
    var stats: Option<SeekerStats>
    var applications: seq<Application>
    var resumes: seq<Resume>
    var showResumeUploader: bool

    constructor (user: Option<User>)
      ensures this.user == user && stats.None? && applications == [] && resumes == []
      ensures !showResumeUploader
    {
      this.user := user;
      stats, applications, resumes := None, [], [];
      showResumeUploader := false;
    }

    /** The load effect: without a user nothing happens; the three reads share one
        `Promise.all`, so all three are stored or none is. */
    method Load(statsRead: Api.Outcome<SeekerStats>, applicationsRead: Api.Outcome<seq<Application>>,
                resumesRead: Api.Outcome<seq<Resume>>)
      modifies this
      ensures if old(user).Some? && statsRead.Resolved? && applicationsRead.Resolved? && resumesRead.Resolved?
        then stats == Some(statsRead.value) && applications == applicationsRead.value
             && resumes == resumesRead.value
        else stats == old(stats) && applications == old(applications) && resumes == old(resumes)
      ensures user == old(user) && showResumeUploader == old(showResumeUploader)
    {
      if user.None? {
        return;
      }
      if statsRead.Resolved? && applicationsRead.Resolved? && resumesRead.Resolved? {
        stats := Some(statsRead.value);
        applications := applicationsRead.value;
        resumes := resumesRead.value;
      }
    }

    /** The "Upload Resume" button. */
    method OpenUploader()
      modifies this
      ensures showResumeUploader
      ensures user == old(user) && stats == old(stats) && applications == old(applications)
      ensures resumes == old(resumes)
    {
      showResumeUploader := true;
    }

    /** `handleResumeUpload`: the new resume goes last, the earlier ones stay as they were,
        and the uploader closes. */
    method ResumeUploaded(newResume: Resume)
      modifies this
      ensures resumes == old(resumes) + [newResume] && !showResumeUploader
      ensures |resumes| == |old(resumes)| + 1 && resumes[..|old(resumes)|] == old(resumes)
      ensures user == old(user) && stats == old(stats) && applications == old(applications)
    {
      resumes := resumes + [newResume];
      showResumeUploader := false;
    }

    /** The overview shows the first five applications, without a pagination bar. */
    function Overview(): (r: seq<Application>)
      reads this
      ensures |r| <= RecentCount && |r| <= |applications| && r == applications[..|r|]
    {
      Recent(applications)
    }
  }
}
