/** The Flask backend (app.py) over its four tables. Each route handler is a method of the
    store: it answers with a status code and a body, and changes the tables only on
    success. The store keeps the invariants the handlers rely on: fresh SQLite row ids,
    distinct usernames and e-mail addresses, one application per (job, user) pair and at
    most one default resume per user. */
module Backend {
  import opened Wrappers
  import opened Types
  import opened Seqs
  import opened BackendRows

  datatype Body =
    | Error(error: string)
    | Registered(message: string, userId: nat)
    | UserBody(user: PublicUser)
    | JobBody(job: JobRow)
    | ApplicationBody(application: ApplicationRow)
    | ResumeBody(resume: ResumeRow)

  /** `jsonify(...), code`. */
  datatype Reply = Reply(code: nat, body: Body)

  const MissingFields := "Missing required fields"
  const AlreadyInUse := "Username or email already in use"
  const RegisteredMessage := "User registered successfully"
  const MissingCredentials := "Missing username or password"
  const InvalidCredentials := "Invalid username or password"
  const JobNotFound := "Job not found"
  const NoValidFields := "No valid fields to update"
  const AlreadyApplied := "You have already applied for this job"
  const MissingStatus := "Missing status"
  const ApplicationNotFound := "Application not found"
  const UserNotFound := "User not found"
  const MissingTitle := "Missing resume title"
  const ResumeNotFound := "Resume not found"

  // ---- Row conditions (the WHERE clauses) ----

  function UserHasId(id: nat): UserRow -> bool {
    (u: UserRow) => u.id == id
  }

  function NamedOrMailed(username: string, email: string): UserRow -> bool {
    (u: UserRow) => u.username == username || u.email == email
  }

  function Named(username: string): UserRow -> bool {
    (u: UserRow) => u.username == username
  }

  function JobHasId(id: nat): JobRow -> bool {
    (j: JobRow) => j.id == id
  }

  function AppHasId(id: nat): ApplicationRow -> bool {
    (a: ApplicationRow) => a.id == id
  }

  function AppliedBy(jobId: nat, userId: int): ApplicationRow -> bool {
    (a: ApplicationRow) => a.jobId == jobId && a.userId == userId
  }

  function ResumeHasId(id: nat): ResumeRow -> bool {
    (r: ResumeRow) => r.id == id
  }

  function OwnedResume(userId: nat, resumeId: nat): ResumeRow -> bool {
    (r: ResumeRow) => r.id == resumeId && r.userId == userId
  }

  function ResumeOfUser(userId: nat): ResumeRow -> bool {
    (r: ResumeRow) => r.userId == userId
  }

  function DefaultOf(userId: nat): ResumeRow -> bool {
    (r: ResumeRow) => r.userId == userId && r.isDefault
  }

  // ---- Row updates (the SET clauses) ----

  function UpdateWith(updates: seq<(Column, string)>): JobRow -> JobRow {
    (j: JobRow) => ApplyUpdates(j, updates)
  }

  function StatusTo(status: string): ApplicationRow -> ApplicationRow {
    (a: ApplicationRow) => a.(status := status)
  }

  function DefaultTo(isDefault: bool): ResumeRow -> ResumeRow {
    (r: ResumeRow) => r.(isDefault := isDefault)
  }

  // ---- The invariants ----

  predicate UsersOk(users: seq<UserRow>, next: nat) {
    1 <= next && (forall i :: 0 <= i < |users| ==> 1 <= users[i].id < next)
    && forall i, j :: 0 <= i < j < |users| ==>
      users[i].id != users[j].id && users[i].username != users[j].username && users[i].email != users[j].email
  }

  predicate JobsOk(jobs: seq<JobRow>, next: nat) {
    1 <= next && (forall i :: 0 <= i < |jobs| ==> 1 <= jobs[i].id < next)
    && forall i, j :: 0 <= i < j < |jobs| ==> jobs[i].id != jobs[j].id
  }

  predicate ApplicationsOk(applications: seq<ApplicationRow>, next: nat) {
    1 <= next && (forall i :: 0 <= i < |applications| ==> 1 <= applications[i].id < next)
    && forall i, j :: 0 <= i < j < |applications| ==>
      applications[i].id != applications[j].id
      && !(applications[i].jobId == applications[j].jobId && applications[i].userId == applications[j].userId)
  }

  predicate ResumesOk(resumes: seq<ResumeRow>, next: nat) {
    1 <= next && (forall i :: 0 <= i < |resumes| ==> 1 <= resumes[i].id < next)
    && forall i, j :: 0 <= i < j < |resumes| ==>
      resumes[i].id != resumes[j].id
      && !(resumes[i].userId == resumes[j].userId && resumes[i].isDefault && resumes[j].isDefault)
  }

  /** A user with a fresh id, an unused name and an unused address keeps the users table
      consistent. */
  lemma UsersOkAppend(users: seq<UserRow>, next: nat, row: UserRow)
    requires UsersOk(users, next) && row.id == next
    requires !Any(users, NamedOrMailed(row.username, row.email))
    ensures UsersOk(users + [row], next + 1)
  {
    var t := users + [row];
    forall i, j | 0 <= i < j < |t|
      ensures t[i].id != t[j].id && t[i].username != t[j].username && t[i].email != t[j].email
    {
      if j == |users| {
        assert t[i] == users[i] && t[j] == row;
        assert !NamedOrMailed(row.username, row.email)(users[i]);
      } else {
        assert t[i] == users[i] && t[j] == users[j];
      }
    }
  }

  /** An application with a fresh id for a pair with no application keeps the table
      consistent. */
  lemma ApplicationsOkAppend(applications: seq<ApplicationRow>, next: nat, row: ApplicationRow)
    requires ApplicationsOk(applications, next) && row.id == next
    requires !Any(applications, AppliedBy(row.jobId, row.userId))
    ensures ApplicationsOk(applications + [row], next + 1)
  {
    var t := applications + [row];
    forall i, j | 0 <= i < j < |t|
      ensures t[i].id != t[j].id && !(t[i].jobId == t[j].jobId && t[i].userId == t[j].userId)
    {
      if j == |applications| {
        assert t[i] == applications[i] && t[j] == row;
        assert !AppliedBy(row.jobId, row.userId)(applications[i]);
      } else {
        assert t[i] == applications[i] && t[j] == applications[j];
      }
    }
  }

  /** A resume with a fresh id that is a default only for a user without one keeps the table
      consistent. */
  lemma ResumesOkAppend(resumes: seq<ResumeRow>, next: nat, row: ResumeRow)
    requires ResumesOk(resumes, next) && row.id == next
    requires row.isDefault ==> !Any(resumes, DefaultOf(row.userId))
    ensures ResumesOk(resumes + [row], next + 1)
  {
    var t := resumes + [row];
    forall i, j | 0 <= i < j < |t|
      ensures t[i].id != t[j].id && !(t[i].userId == t[j].userId && t[i].isDefault && t[j].isDefault)
    {
      if j == |resumes| {
        assert t[i] == resumes[i] && t[j] == row;
        if row.isDefault {
          assert !DefaultOf(row.userId)(resumes[i]);
        }
      } else {
        assert t[i] == resumes[i] && t[j] == resumes[j];
      }
    }
  }

  /** A row after `set_default_resume`: the flag is set on the chosen resume, cleared on the
      user's others, and kept on other users' resumes. */
  function Reflagged(row: ResumeRow, userId: nat, resumeId: nat): ResumeRow {
    row.(isDefault := row.id == resumeId || (row.userId != userId && row.isDefault))
  }

  /** The two statements of `set_default_resume`: clear every default of the user, then
      set the chosen resume. Row by row only the flag changes: the chosen resume is set, the
      user's others are cleared, and other users' flags stay. */
  function ClearThenSet(resumes: seq<ResumeRow>, userId: nat, resumeId: nat): (t: seq<ResumeRow>)
    ensures |t| == |resumes|
    ensures forall i :: 0 <= i < |t| ==> t[i] == Reflagged(resumes[i], userId, resumeId)
  {
    ReplaceWhere(ReplaceWhere(resumes, ResumeOfUser(userId), DefaultTo(false)), ResumeHasId(resumeId), DefaultTo(true))
  }

  /** After `set_default_resume` on a resume the user owns, the table stays consistent, the
      chosen resume is the user's only default, and no other user's resume changes. */
  lemma ClearThenSetLaws(resumes: seq<ResumeRow>, next: nat, userId: nat, resumeId: nat, k: nat)
    requires ResumesOk(resumes, next)
    requires k < |resumes| && OwnedResume(userId, resumeId)(resumes[k])
    ensures var t := ClearThenSet(resumes, userId, resumeId);
      ResumesOk(t, next)
      && (forall i :: 0 <= i < |t| && t[i].userId == userId ==> (t[i].isDefault <==> t[i].id == resumeId))
      && (forall i :: 0 <= i < |t| && t[i].userId != userId ==> t[i] == resumes[i])
      && t[k] == resumes[k].(isDefault := true)
      && Count(t, DefaultOf(userId)) == 1
  {
    var t := ClearThenSet(resumes, userId, resumeId);
    forall i | 0 <= i < |t| && i != k
      ensures !DefaultOf(userId)(t[i])
    {
      assert resumes[i].id != resumes[k].id;
    }
    CountOne(t, DefaultOf(userId), k);
  }

  /** `FirstIndex` on a username finds the one user of that name. */
  function FindUser(users: seq<UserRow>, username: string): (r: Option<UserRow>)
    ensures r.None? <==> !Any(users, Named(username))
    ensures r.Some? ==> r.value in users && r.value.username == username
  {
    if Any(users, Named(username)) then Some(users[FirstIndex(users, Named(username))]) else None
  }

  class Store {
    var users: seq<UserRow>
    var jobs: seq<JobRow>
    var applications: seq<ApplicationRow>
    var resumes: seq<ResumeRow>
    /** The next row id of each table (SQLite's `lastrowid` of the next insert). */
    var nextUserId: nat
    var nextJobId: nat
    var nextApplicationId: nat
    var nextResumeId: nat

    predicate Valid()
      reads this
    {
      UsersOk(users, nextUserId) && JobsOk(jobs, nextJobId)
      && ApplicationsOk(applications, nextApplicationId) && ResumesOk(resumes, nextResumeId)
    }

    /** `init_db` on a fresh database: the two demo users and nothing else. The hashes are
        what `generate_password_hash` produced for their passwords, and each insert reads
        the clock on its own. */
    constructor Init(muserHash: string, mvcHash: string, muserNow: string, mvcNow: string)
      ensures Valid()
      ensures users == [UserRow(1, "muser", "muser@example.com", muserHash, "seeker", muserNow),
                        UserRow(2, "mvc", "mvc@example.com", mvcHash, "employer", mvcNow)]
      ensures jobs == [] && applications == [] && resumes == []
    {
      users := [UserRow(1, "muser", "muser@example.com", muserHash, "seeker", muserNow),
                UserRow(2, "mvc", "mvc@example.com", mvcHash, "employer", mvcNow)];
      jobs, applications, resumes := [], [], [];
      nextUserId, nextJobId, nextApplicationId, nextResumeId := 3, 1, 1, 1;
    }

    /** `register`: 400 when a field is missing or empty, 409 when the username or the
        address is taken, otherwise one new user (its type stored as sent) and 201. */
    method Register(username: Option<string>, email: Option<string>, password: Option<string>,
                    userType: Option<string>, passwordHash: string, now: string) returns (reply: Reply)
      requires Valid()
      modifies this
      ensures Valid()
      ensures reply.code != 201 ==> unchanged(this)
      ensures Falsy(username) || Falsy(email) || Falsy(password) || Falsy(userType) ==>
        reply == Reply(400, Error(MissingFields))
      ensures !(Falsy(username) || Falsy(email) || Falsy(password) || Falsy(userType)) ==>
        if Any(old(users), NamedOrMailed(username.value, email.value)) then
          reply == Reply(409, Error(AlreadyInUse))
        else
          reply == Reply(201, Registered(RegisteredMessage, old(nextUserId)))
          && users == old(users) + [UserRow(old(nextUserId), username.value, email.value, passwordHash,
                                            userType.value, now)]
          && nextUserId == old(nextUserId) + 1
          && jobs == old(jobs) && applications == old(applications) && resumes == old(resumes)
          && nextJobId == old(nextJobId) && nextApplicationId == old(nextApplicationId)
          && nextResumeId == old(nextResumeId)
    {
      if Falsy(username) || Falsy(email) || Falsy(password) || Falsy(userType) {
        return Reply(400, Error(MissingFields));
      }
      if Any(users, NamedOrMailed(username.value, email.value)) {
        return Reply(409, Error(AlreadyInUse));
      }
      var id := nextUserId;
      var row := UserRow(id, username.value, email.value, passwordHash, userType.value, now);
      UsersOkAppend(users, nextUserId, row);
      users := users + [row];
      nextUserId := nextUserId + 1;
      reply := Reply(201, Registered(RegisteredMessage, id));
    }

    /** `login`: 400 without both fields, 401 unless the user exists and `check` accepts the
        password against the stored hash, and otherwise the user's row without the hash. */
    method Login(username: Option<string>, password: Option<string>, check: (string, string) -> bool)
      returns (reply: Reply)
      requires Valid()
      ensures Falsy(username) || Falsy(password) ==> reply == Reply(400, Error(MissingCredentials))
      ensures reply.code == 200 <==>
        !Falsy(username) && !Falsy(password)
        && exists i :: (0 <= i < |users| && users[i].username == username.value
                        && check(users[i].passwordHash, password.value))
      ensures reply.code == 200 ==> exists i :: (0 <= i < |users| && users[i].username == username.value
                                                 && reply.body == UserBody(Public(users[i])))
      ensures !Falsy(username) && !Falsy(password) && reply.code != 200 ==>
        reply == Reply(401, Error(InvalidCredentials))
    {
      if Falsy(username) || Falsy(password) {
        return Reply(400, Error(MissingCredentials));
      }
      var user := FindUser(users, username.value);
      if user.None? || !check(user.value.passwordHash, password.value) {
        reply := Reply(401, Error(InvalidCredentials));
        if user.Some? {
          forall i | 0 <= i < |users| && users[i].username == username.value
            ensures users[i] == user.value
          {
            var k :| 0 <= k < |users| && users[k] == user.value;
            assert !(i < k || k < i);
          }
        }
        return;
      }
      reply := Reply(200, UserBody(Public(user.value)));
    }

    /** The loop of `update_job` that keeps the whitelisted fields of the body, in order. */
    static method CollectUpdates(data: seq<(string, string)>) returns (updates: seq<(Column, string)>)
      ensures updates == Whitelisted(data)
    {
      updates := [];
      var i := 0;
      while i < |data|
        invariant 0 <= i <= |data|
        invariant updates == Whitelisted(data[..i])
      {
        assert data[..i + 1][..i] == data[..i];
        var column := ColumnOf(data[i].0);
        if column.Some? {
          updates := updates + [(column.value, data[i].1)];
        }
        i := i + 1;
      }
      assert data[..i] == data;
    }

    /** `update_job`: 404 for an unknown job; otherwise the whitelisted items of the request
        in order, 400 when there are none, and else the job rewritten by those updates and
        returned with 200. */
    method UpdateJob(jobId: nat, data: seq<(string, string)>) returns (reply: Reply)
      requires Valid()
      modifies this
      ensures Valid()
      ensures reply.code != 200 ==> unchanged(this)
      ensures !Any(old(jobs), JobHasId(jobId)) ==> reply == Reply(404, Error(JobNotFound))
      ensures Any(old(jobs), JobHasId(jobId)) && Whitelisted(data) == [] ==>
        reply == Reply(400, Error(NoValidFields))
      ensures Any(old(jobs), JobHasId(jobId)) && Whitelisted(data) != [] ==>
        reply == Reply(200, JobBody(ApplyUpdates(old(jobs)[FirstIndex(old(jobs), JobHasId(jobId))], Whitelisted(data))))
        && jobs == ReplaceWhere(old(jobs), JobHasId(jobId), UpdateWith(Whitelisted(data)))
        && users == old(users) && applications == old(applications) && resumes == old(resumes)
        && nextUserId == old(nextUserId) && nextJobId == old(nextJobId)
        && nextApplicationId == old(nextApplicationId) && nextResumeId == old(nextResumeId)
    {
      if !Any(jobs, JobHasId(jobId)) {
        return Reply(404, Error(JobNotFound));
      }
      var updates := CollectUpdates(data);
      if updates == [] {
        return Reply(400, Error(NoValidFields));
      }
      var k := FirstIndex(jobs, JobHasId(jobId));
      var updated := ApplyUpdates(jobs[k], updates);
      var before := jobs;
      jobs := ReplaceWhere(jobs, JobHasId(jobId), UpdateWith(updates));
      assert forall j :: 0 <= j < |jobs| ==> jobs[j].id == before[j].id;
      reply := Reply(200, JobBody(updated));
    }

    /** `apply_for_job`: 400 without a user and a resume id, 404 for an unknown job, 409
        when this user already applied to this job, and otherwise one new pending
        application and 201. */
    method ApplyForJob(jobId: nat, userId: Option<int>, resumeId: Option<int>, now: string)
      returns (reply: Reply)
      requires Valid()
      modifies this
      ensures Valid()
      ensures reply.code != 201 ==> unchanged(this)
      ensures FalsyId(userId) || FalsyId(resumeId) ==> reply == Reply(400, Error(MissingFields))
      ensures !FalsyId(userId) && !FalsyId(resumeId) && !Any(old(jobs), JobHasId(jobId)) ==>
        reply == Reply(404, Error(JobNotFound))
      ensures !FalsyId(userId) && !FalsyId(resumeId) && Any(old(jobs), JobHasId(jobId)) ==>
        if Any(old(applications), AppliedBy(jobId, userId.value)) then
          reply == Reply(409, Error(AlreadyApplied))
        else
          var row := ApplicationRow(old(nextApplicationId), jobId, userId.value, resumeId.value,
                                    "pending", now, None);
          reply == Reply(201, ApplicationBody(row))
          && applications == old(applications) + [row]
          && nextApplicationId == old(nextApplicationId) + 1
          && users == old(users) && jobs == old(jobs) && resumes == old(resumes)
          && nextUserId == old(nextUserId) && nextJobId == old(nextJobId)
          && nextResumeId == old(nextResumeId)
    {
      if FalsyId(userId) || FalsyId(resumeId) {
        return Reply(400, Error(MissingFields));
      }
      if !Any(jobs, JobHasId(jobId)) {
        return Reply(404, Error(JobNotFound));
      }
      if Any(applications, AppliedBy(jobId, userId.value)) {
        return Reply(409, Error(AlreadyApplied));
      }
      var row := ApplicationRow(nextApplicationId, jobId, userId.value, resumeId.value, "pending", now, None);
      ApplicationsOkAppend(applications, nextApplicationId, row);
      applications := applications + [row];
      nextApplicationId := nextApplicationId + 1;
      reply := Reply(201, ApplicationBody(row));
    }

    /** `update_application_status`: 400 without a status, 404 for an unknown application,
        and otherwise the status stored as sent (no check of the transition) and 200. */
    method UpdateApplicationStatus(appId: nat, status: Option<string>) returns (reply: Reply)
      requires Valid()
      modifies this
      ensures Valid()
      ensures reply.code != 200 ==> unchanged(this)
      ensures Falsy(status) ==> reply == Reply(400, Error(MissingStatus))
      ensures !Falsy(status) && !Any(old(applications), AppHasId(appId)) ==>
        reply == Reply(404, Error(ApplicationNotFound))
      ensures !Falsy(status) && Any(old(applications), AppHasId(appId)) ==>
        reply == Reply(200, ApplicationBody(old(applications)[FirstIndex(old(applications), AppHasId(appId))].(status := status.value)))
        && applications == ReplaceWhere(old(applications), AppHasId(appId), StatusTo(status.value))
        && users == old(users) && jobs == old(jobs) && resumes == old(resumes)
        && nextUserId == old(nextUserId) && nextJobId == old(nextJobId)
        && nextApplicationId == old(nextApplicationId) && nextResumeId == old(nextResumeId)
    {
      if Falsy(status) {
        return Reply(400, Error(MissingStatus));
      }
      if !Any(applications, AppHasId(appId)) {
        return Reply(404, Error(ApplicationNotFound));
      }
      var k := FirstIndex(applications, AppHasId(appId));
      var updated := applications[k].(status := status.value);
      applications := ReplaceWhere(applications, AppHasId(appId), StatusTo(status.value));
      reply := Reply(200, ApplicationBody(updated));
    }

    /** `upload_resume`: 404 for an unknown user, 400 without a title, and otherwise one new
        resume, which is the default exactly when the user had none, and 201. */
    method UploadResume(userId: nat, title: Option<string>, stamp: string, now: string) returns (reply: Reply)
      requires Valid()
      modifies this
      ensures Valid()
      ensures reply.code != 201 ==> unchanged(this)
      ensures !Any(old(users), UserHasId(userId)) ==> reply == Reply(404, Error(UserNotFound))
      ensures Any(old(users), UserHasId(userId)) && Falsy(title) ==> reply == Reply(400, Error(MissingTitle))
      ensures Any(old(users), UserHasId(userId)) && !Falsy(title) ==>
        var row := ResumeRow(old(nextResumeId), userId, title.value, MockFileName(userId, stamp), now,
                             !Any(old(resumes), DefaultOf(userId)));
        reply == Reply(201, ResumeBody(row))
        && resumes == old(resumes) + [row]
        && nextResumeId == old(nextResumeId) + 1
        && users == old(users) && jobs == old(jobs) && applications == old(applications)
        && nextUserId == old(nextUserId) && nextJobId == old(nextJobId)
        && nextApplicationId == old(nextApplicationId)
      ensures reply.code == 201 ==> Count(resumes, DefaultOf(userId)) == 1
    {
      if !Any(users, UserHasId(userId)) {
        return Reply(404, Error(UserNotFound));
      }
      if Falsy(title) {
        return Reply(400, Error(MissingTitle));
      }
      var hasDefault := Any(resumes, DefaultOf(userId));
      var row := ResumeRow(nextResumeId, userId, title.value, MockFileName(userId, stamp), now, !hasDefault);
      var before := resumes;
      ResumesOkAppend(resumes, nextResumeId, row);
      resumes := resumes + [row];
      nextResumeId := nextResumeId + 1;
      reply := Reply(201, ResumeBody(row));
      if hasDefault {
        var k := FirstIndex(before, DefaultOf(userId));
        CountOne(resumes, DefaultOf(userId), k);
      } else {
        CountOne(resumes, DefaultOf(userId), |before|);
      }
    }

    /** `set_default_resume`: 404 unless the resume exists and belongs to the user;
        otherwise every resume of the user is cleared, then the chosen one is set, so that
        it is the user's only default, and it is returned with 200. */
    method SetDefaultResume(userId: nat, resumeId: nat) returns (reply: Reply)
      requires Valid()
      modifies this
      ensures Valid()
      ensures reply.code != 200 ==> unchanged(this)
      ensures !Any(old(resumes), OwnedResume(userId, resumeId)) ==> reply == Reply(404, Error(ResumeNotFound))
      ensures Any(old(resumes), OwnedResume(userId, resumeId)) ==>
        reply.code == 200
        && resumes == ClearThenSet(old(resumes), userId, resumeId)
        && reply.body.ResumeBody? && reply.body.resume.id == resumeId && reply.body.resume.isDefault
        && (forall i :: 0 <= i < |resumes| && resumes[i].userId == userId ==>
              (resumes[i].isDefault <==> resumes[i].id == resumeId))
        && (forall i :: 0 <= i < |resumes| && resumes[i].userId != userId ==> resumes[i] == old(resumes)[i])
        && Count(resumes, DefaultOf(userId)) == 1
        && users == old(users) && jobs == old(jobs) && applications == old(applications)
        && nextUserId == old(nextUserId) && nextJobId == old(nextJobId)
        && nextApplicationId == old(nextApplicationId) && nextResumeId == old(nextResumeId)
      ensures Any(old(resumes), OwnedResume(userId, resumeId)) ==>
        reply.body == ResumeBody(old(resumes)[FirstIndex(old(resumes), OwnedResume(userId, resumeId))].(isDefault := true))
    {
      if !Any(resumes, OwnedResume(userId, resumeId)) {
        return Reply(404, Error(ResumeNotFound));
      }
      var before := resumes;
      var k := FirstIndex(before, OwnedResume(userId, resumeId));
      ClearThenSetLaws(before, nextResumeId, userId, resumeId, k);
      resumes := ReplaceWhere(before, ResumeOfUser(userId), DefaultTo(false));
      resumes := ReplaceWhere(resumes, ResumeHasId(resumeId), DefaultTo(true));
      assert resumes == ClearThenSet(before, userId, resumeId);
      assert before == old(resumes) && k == FirstIndex(old(resumes), OwnedResume(userId, resumeId));
      reply := Reply(200, ResumeBody(resumes[k]));
      assert reply.body == ResumeBody(before[k].(isDefault := true));
    }
  }
}
