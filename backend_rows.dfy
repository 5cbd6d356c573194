/** The rows of the Flask backend's tables (app.py), the whitelist that `update_job` applies,
    and the two statistics routes, which only count rows. Values that arrive as JSON are kept
    as the backend keeps them: strings it never validates (`user_type`, `job_type`, `status`)
    stay strings. */
module BackendRows {
  import opened Wrappers
  import opened Types
  import opened Seqs

  datatype UserRow = UserRow(id: nat, username: string, email: string, passwordHash: string,
                             userType: string, createdAt: string)

  /** A user row without its password hash: what a successful login returns. */
  datatype PublicUser = PublicUser(id: nat, username: string, email: string, userType: string,
                                   createdAt: string)

  datatype JobRow = JobRow(id: nat, title: string, company: string, location: string,
                           description: string, requirements: string, salary: string,
                           jobType: string, postedDate: string, employerId: int, status: string)

  datatype ApplicationRow = ApplicationRow(id: nat, jobId: nat, userId: int, resumeId: int,
                                           status: string, appliedDate: string, notes: Option<string>)

  datatype ResumeRow = ResumeRow(id: nat, userId: nat, title: string, fileName: string,
                                 uploadDate: string, isDefault: bool)

  /** `del user_dict['password_hash']`. */
  function Public(u: UserRow): (p: PublicUser)
    ensures p.id == u.id && p.username == u.username && p.email == u.email
    ensures p.userType == u.userType && p.createdAt == u.createdAt
  {
    PublicUser(u.id, u.username, u.email, u.userType, u.createdAt)
  }

  /** Python truthiness of an optional text field: absent and empty are both false. */
  predicate Falsy(v: Option<string>) {
    v.None? || v.value == ""
  }

  /** ... and of an optional number: absent and zero are both false. */
  predicate FalsyId(v: Option<int>) {
    v.None? || v.value == 0
  }

  // ---- The update whitelist ----

  /** The columns `update_job` may set. */
  datatype Column = Title | Company | Location | Description | Requirements | Salary | JobTypeColumn | Status

  /** The column a request key names, if it is whitelisted: `jobType` sets `job_type`, seven
      keys set the column of the same name, and every other key is ignored. */
  function ColumnOf(key: string): (c: Option<Column>)
    ensures c == Some(JobTypeColumn) <==> key == "jobType"
    ensures key == "job_type" || key == "id" || key == "employerId" || key == "postedDate" ==> c.None?
  {
    if key == "jobType" then Some(JobTypeColumn)
    else if key == "title" then Some(Title)
    else if key == "company" then Some(Company)
    else if key == "location" then Some(Location)
    else if key == "description" then Some(Description)
    else if key == "requirements" then Some(Requirements)
    else if key == "salary" then Some(Salary)
    else if key == "status" then Some(Status)
    else None
  }

  predicate Listed(item: (string, string)) {
    ColumnOf(item.0).Some?
  }

  /** `update_fields` paired with `update_values`: the whitelisted items of the request, in
      its order, with their columns. */
  function Whitelisted(items: seq<(string, string)>): (r: seq<(Column, string)>)
    ensures |r| <= |items|
  {
    if items == [] then []
    else
      var last := items[|items| - 1];
      var c := ColumnOf(last.0);
      Whitelisted(items[..|items| - 1]) + (if c.Some? then [(c.value, last.1)] else [])
  }

  /** One update per listed key. */
  lemma {:induction false} WhitelistedCount(items: seq<(string, string)>)
    ensures |Whitelisted(items)| == Count(items, Listed)
  {
    if items != [] {
      var init, last := items[..|items| - 1], items[|items| - 1];
      assert items == init + [last];
      WhitelistedCount(init);
      CountAppend(init, last, Listed);
    }
  }

  /** There is nothing to update exactly when no key is whitelisted. */
  lemma WhitelistedEmptyIff(items: seq<(string, string)>)
    ensures Whitelisted(items) == [] <==> forall i :: 0 <= i < |items| ==> ColumnOf(items[i].0).None?
  {
    WhitelistedCount(items);
    if Whitelisted(items) == [] {
      forall i | 0 <= i < |items|
        ensures ColumnOf(items[i].0).None?
      {
        FilterMembership(items, Listed, items[i]);
      }
    } else {
      if forall i :: 0 <= i < |items| ==> ColumnOf(items[i].0).None? {
        FilterKeepsNone(items, Listed);
      }
    }
  }

  /** Each update carries a whitelisted key's column and that key's value. */
  lemma {:induction false} WhitelistedFromItems(items: seq<(string, string)>)
    ensures forall k :: 0 <= k < |Whitelisted(items)| ==>
      exists i :: 0 <= i < |items| && ColumnOf(items[i].0) == Some(Whitelisted(items)[k].0)
                  && items[i].1 == Whitelisted(items)[k].1
  {
    if items != [] {
      var init, last := items[..|items| - 1], items[|items| - 1];
      WhitelistedFromItems(init);
      var w, wi := Whitelisted(items), Whitelisted(init);
      forall k | 0 <= k < |w|
        ensures exists i :: 0 <= i < |items| && ColumnOf(items[i].0) == Some(w[k].0) && items[i].1 == w[k].1
      {
        if k < |wi| {
          assert w[k] == wi[k];
          var i :| 0 <= i < |init| && ColumnOf(init[i].0) == Some(wi[k].0) && init[i].1 == wi[k].1;
          assert items[i] == init[i];
        } else {
          assert w[k] == (ColumnOf(last.0).value, last.1);
          assert ColumnOf(items[|items| - 1].0) == Some(w[k].0);
        }
      }
    } else {
      assert Whitelisted(items) == [];
    }
  }

  lemma {:induction false} CountAppend<T>(s: seq<T>, x: T, p: T -> bool)
    ensures Count(s + [x], p) == Count(s, p) + (if p(x) then 1 else 0)
  {
    if s == [] {
      assert [x][1..] == [];
    } else {
      assert (s + [x])[1..] == s[1..] + [x];
      CountAppend(s[1..], x, p);
    }
  }

  /** Keys off the whitelist change nothing: dropping them leaves the same updates. */
  lemma {:induction false} UnlistedKeysIgnored(items: seq<(string, string)>)
    ensures Whitelisted(items) == Whitelisted(Filter(items, Listed))
  {
    if items != [] {
      var init, last := items[..|items| - 1], items[|items| - 1];
      assert items == init + [last];
      UnlistedKeysIgnored(init);
      FilterAppend(init, [last], Listed);
      var f := Filter(init, Listed);
      if Listed(last) {
        assert Filter([last], Listed) == [last];
        assert (f + [last])[..|f + [last]| - 1] == f;
      } else {
        assert Filter([last], Listed) == [];
        assert Filter(items, Listed) == f;
      }
    }
  }

  /** The value a row holds in a settable column. */
  function Field(job: JobRow, c: Column): string {
    match c
    case Title => job.title
    case Company => job.company
    case Location => job.location
    case Description => job.description
    case Requirements => job.requirements
    case Salary => job.salary
    case JobTypeColumn => job.jobType
    case Status => job.status
  }

  /** One `SET column = ?`: that column takes the value, and nothing else changes. */
  function SetColumn(job: JobRow, c: Column, v: string): (r: JobRow)
    ensures r.id == job.id && r.employerId == job.employerId && r.postedDate == job.postedDate
    ensures forall c' :: Field(r, c') == if c' == c then v else Field(job, c')
  {
    match c
    case Title => job.(title := v)
    case Company => job.(company := v)
    case Location => job.(location := v)
    case Description => job.(description := v)
    case Requirements => job.(requirements := v)
    case Salary => job.(salary := v)
    case JobTypeColumn => job.(jobType := v)
    case Status => job.(status := v)
  }

  /** The value of the last assignment to `c` among `updates`, or `otherwise` when there
      is none. */
  function LastAssigned(updates: seq<(Column, string)>, c: Column, otherwise: string): string
    decreases |updates|
  {
    if updates == [] then otherwise
    else if updates[|updates| - 1].0 == c then updates[|updates| - 1].1
    else LastAssigned(updates[..|updates| - 1], c, otherwise)
  }

  /** Reading the assignments from the front: the first one only changes the fallback. */
  lemma {:induction false} LastAssignedFront(updates: seq<(Column, string)>, c: Column, otherwise: string)
    requires updates != []
    ensures LastAssigned(updates, c, otherwise) ==
      LastAssigned(updates[1..], c, if updates[0].0 == c then updates[0].1 else otherwise)
    decreases |updates|
  {
    var rest := updates[1..];
    if rest != [] {
      var init := updates[..|updates| - 1];
      assert init[1..] == rest[..|rest| - 1];
      assert updates[|updates| - 1] == rest[|rest| - 1];
      if updates[|updates| - 1].0 != c {
        LastAssignedFront(init, c, otherwise);
      }
    } else {
      assert updates[..0] == [];
    }
  }

  /** The same, for every column at once, with the first assignment applied to the row. */
  lemma LastAssignedFrontAll(updates: seq<(Column, string)>, job: JobRow)
    requires updates != []
    ensures forall c ::
              LastAssigned(updates, c, Field(job, c)) ==
              LastAssigned(updates[1..], c, Field(SetColumn(job, updates[0].0, updates[0].1), c))
  {
    forall c {
      LastAssignedFront(updates, c, Field(job, c));
    }
  }

  /** The whole `UPDATE jobs SET ...`: the assignments in order, so that for a column named
      twice the rightmost one stands. The id, the owner and the posting date never change. */
  function ApplyUpdates(job: JobRow, updates: seq<(Column, string)>): (r: JobRow)
    ensures r.id == job.id && r.employerId == job.employerId && r.postedDate == job.postedDate
    ensures forall c :: Field(r, c) == LastAssigned(updates, c, Field(job, c))
    decreases |updates|
  {
    if updates == [] then job
    else
      var next := SetColumn(job, updates[0].0, updates[0].1);
      LastAssignedFrontAll(updates, job);
      ApplyUpdates(next, updates[1..])
  }

  /** `{"jobType": v}` sets the job type; `{"job_type": v}` is no valid update at all. */
  lemma JobTypeKeyMapped(job: JobRow, v: string)
    ensures ApplyUpdates(job, Whitelisted([("jobType", v)])) == job.(jobType := v)
    ensures Whitelisted([("job_type", v)]) == []
  {
    assert [("jobType", v)][..0] == [];
    assert [("job_type", v)][..0] == [];
  }

  // ---- The mock file name ----

  function DigitChar(d: nat): char
    requires d < 10
  {
    "0123456789"[d]
  }

  /** The value of a decimal digit. */
  function DigitValue(c: char): nat {
    if '0' <= c <= '9' then c as int - '0' as int else 0
  }

  lemma DigitCharValue(d: nat)
    requires d < 10
    ensures DigitValue(DigitChar(d)) == d
    ensures DigitChar(d) == '0' <==> d == 0
  {
    assert "0123456789"[d] as int == '0' as int + d by {
      if d == 0 {} else if d == 1 {} else if d == 2 {} else if d == 3 {} else if d == 4 {}
      else if d == 5 {} else if d == 6 {} else if d == 7 {} else if d == 8 {} else {}
    }
  }

  /** The number a string of decimal digits denotes, most significant digit first. */
  function DigitsValue(s: string): nat
    decreases |s|
  {
    if s == [] then 0 else 10 * DigitsValue(s[..|s| - 1]) + DigitValue(s[|s| - 1])
  }

  /** `str(n)` for a non-negative `n`: digits without a leading zero that denote `n`. */
  function Decimal(n: nat): (s: string)
    ensures s != []
    ensures forall i :: 0 <= i < |s| ==> '0' <= s[i] <= '9'
    ensures DigitsValue(s) == n
    ensures n > 0 ==> s[0] != '0'
  {
    DigitCharValue(n % 10);
    if n < 10 then
      assert [DigitChar(n)][..0] == [];
      [DigitChar(n)]
    else
      var s := Decimal(n / 10) + [DigitChar(n % 10)];
      assert s[..|s| - 1] == Decimal(n / 10);
      s
  }

  /** Two numbers with the same decimal string are equal. */
  lemma DecimalInjective(a: nat, b: nat)
    ensures Decimal(a) == Decimal(b) ==> a == b
  {
  }

  /** `f"resume_{user_id}_{stamp}.pdf"`, the stamp being the formatted clock: "resume_", the
      user id in decimal, '_', the stamp and ".pdf", in that order. */
  function MockFileName(userId: nat, stamp: string): (name: string)
    ensures var d := Decimal(userId);
      |name| == |d| + |stamp| + 12
      && name[..7] == "resume_"
      && name[7..7 + |d|] == d
      && name[7 + |d|] == '_'
      && name[8 + |d|..|name| - 4] == stamp
      && name[|name| - 4..] == ".pdf"
  {
    var name := "resume_" + Decimal(userId) + "_" + stamp + ".pdf";
    assert name == "resume_" + (Decimal(userId) + ("_" + (stamp + ".pdf")));
    name
  }

  /** The file name determines the user and the stamp: the user id is the run of digits
      after "resume_", which ends at the first '_'. */
  lemma MockFileNameDeterminesParts(u1: nat, s1: string, u2: nat, s2: string)
    requires MockFileName(u1, s1) == MockFileName(u2, s2)
    ensures u1 == u2 && s1 == s2
  {
    var name, d1, d2 := MockFileName(u1, s1), Decimal(u1), Decimal(u2);
    assert |d1| == |d2|;
    assert d1 == name[7..7 + |d1|] == d2;
    DecimalInjective(u1, u2);
  }

  // ---- The statistics routes ----

  function OwnedBy(employerId: int): JobRow -> bool {
    (j: JobRow) => j.employerId == employerId
  }

  function ActiveOwnedBy(employerId: int): JobRow -> bool {
    (j: JobRow) => j.employerId == employerId && j.status == "active"
  }

  /** The ids of an employer's jobs, in table order. */
  function JobIds(jobs: seq<JobRow>, employerId: int): (ids: seq<nat>)
    ensures |ids| == Count(jobs, OwnedBy(employerId))
    ensures forall x :: x in ids <==> exists i :: 0 <= i < |jobs| && jobs[i].employerId == employerId && jobs[i].id == x
  {
    if jobs == [] then []
    else
      var rest := JobIds(jobs[1..], employerId);
      assert forall i :: 1 <= i < |jobs| ==> jobs[i] == jobs[1..][i - 1];
      assert forall i :: 0 <= i < |jobs| - 1 ==> jobs[1..][i] == jobs[i + 1];
      if jobs[0].employerId == employerId then [jobs[0].id] + rest else rest
  }

  function ForJobs(ids: seq<nat>): ApplicationRow -> bool {
    (a: ApplicationRow) => a.jobId in ids
  }

  function ForJobsWithStatus(ids: seq<nat>, status: string): ApplicationRow -> bool {
    (a: ApplicationRow) => a.jobId in ids && a.status == status
  }

  /** `get_employer_stats`: the employer's jobs, the active ones, and the applications to them
      in all, reviewed and interviewed (the application counts are only queried when the
      employer has a job). The counters are consistent: active jobs are among all jobs,
      reviewed and interviewed applications are disjoint parts of all applications, and an
      employer with no jobs has nothing to count. The `if job_ids` guard changes nothing: the
      counts it skips are zero anyway. */
  function GetEmployerStats(jobs: seq<JobRow>, applications: seq<ApplicationRow>, employerId: int): (s: EmployerStats)
    ensures s.activeJobs <= s.totalJobs
    ensures s.reviewedApplications + s.interviewedCandidates <= s.totalApplications
    ensures s.totalJobs == 0 ==> s == EmployerStats(0, 0, 0, 0, 0)
    ensures s.totalApplications == Count(applications, ForJobs(JobIds(jobs, employerId)))
  {
    EmployerCountBounds(jobs, applications, employerId);
    var ids := JobIds(jobs, employerId);
    var total := if ids != [] then Count(applications, ForJobs(ids)) else 0;
    var reviewed := if ids != [] then Count(applications, ForJobsWithStatus(ids, "reviewed")) else 0;
    var interviewed := if ids != [] then Count(applications, ForJobsWithStatus(ids, "interviewed")) else 0;
    EmployerStats(Count(jobs, OwnedBy(employerId)), Count(jobs, ActiveOwnedBy(employerId)),
                  total, reviewed, interviewed)
  }

  /** The inequalities between the employer counts, and the zero count of applications to
      no jobs. */
  lemma EmployerCountBounds(jobs: seq<JobRow>, applications: seq<ApplicationRow>, employerId: int)
    ensures var ids := JobIds(jobs, employerId);
      Count(jobs, ActiveOwnedBy(employerId)) <= Count(jobs, OwnedBy(employerId))
      && Count(applications, ForJobsWithStatus(ids, "reviewed"))
         + Count(applications, ForJobsWithStatus(ids, "interviewed"))
         <= Count(applications, ForJobs(ids))
      && (ids == [] ==> Count(applications, ForJobs(ids)) == 0)
  {
    var ids := JobIds(jobs, employerId);
    CountMonotone(jobs, ActiveOwnedBy(employerId), OwnedBy(employerId));
    var r, v := ForJobsWithStatus(ids, "reviewed"), ForJobsWithStatus(ids, "interviewed");
    CountDisjoint(applications, r, v);
    CountMonotone(applications, x => r(x) || v(x), ForJobs(ids));
    if ids == [] {
      FilterKeepsNone(applications, ForJobs(ids));
    }
  }

  function ByUser(userId: int): ApplicationRow -> bool {
    (a: ApplicationRow) => a.userId == userId
  }

  function ByUserWithStatus(userId: int, status: string): ApplicationRow -> bool {
    (a: ApplicationRow) => a.userId == userId && a.status == status
  }

  /** `get_seeker_stats`: the user's applications in all and per status. The four per-status
      counts are disjoint parts of the total (a rejected application, or one with any other
      status, is counted only in the total). */
  function GetSeekerStats(applications: seq<ApplicationRow>, userId: int): (s: SeekerStats)
    ensures s.pendingApplications + s.reviewedApplications + s.interviews + s.offers <= s.totalApplications
    ensures s.totalApplications == Count(applications, ByUser(userId))
  {
    SeekerCountParts(applications, userId);
    SeekerStats(Count(applications, ByUser(userId)),
                Count(applications, ByUserWithStatus(userId, "pending")),
                Count(applications, ByUserWithStatus(userId, "reviewed")),
                Count(applications, ByUserWithStatus(userId, "interviewed")),
                Count(applications, ByUserWithStatus(userId, "offered")))
  }

  lemma {:induction false} SeekerCountParts(applications: seq<ApplicationRow>, userId: int)
    ensures Count(applications, ByUserWithStatus(userId, "pending"))
      + Count(applications, ByUserWithStatus(userId, "reviewed"))
      + Count(applications, ByUserWithStatus(userId, "interviewed"))
      + Count(applications, ByUserWithStatus(userId, "offered"))
      <= Count(applications, ByUser(userId))
  {
    if applications != [] {
      SeekerCountParts(applications[1..], userId);
    }
  }
}
