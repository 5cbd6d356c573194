/** The employer's application review panel
    (src/components/employer/ApplicationsManager.tsx): a job picker that selects the first
    job on its own, the applications of the picked job, and two dialogs that change one
    application's status or note in the held list. */
module ApplicationsManager {
  import opened Wrappers
  import opened Types
  import opened Seqs
  import Api

  // ---- Replace-by-id on the held list ----

  function HasId(id: string): Application -> bool {
    (a: Application) => a.id == id
  }

  function WithStatus(status: AppStatus): Application -> Application {
    (a: Application) => a.(status := status)
  }

  function WithNotes(text: string): Application -> Application {
    (a: Application) => a.(notes := Some(text))
  }

  /** `applications.map(app => app.id === id ? { ...app, status } : app)`. */
  function SetStatusById(apps: seq<Application>, id: string, status: AppStatus): (r: seq<Application>)
    ensures |r| == |apps|
    ensures forall i :: 0 <= i < |apps| && apps[i].id == id ==> r[i] == apps[i].(status := status)
    ensures forall i :: 0 <= i < |apps| && apps[i].id != id ==> r[i] == apps[i]
  {
    ReplaceWhere(apps, HasId(id), WithStatus(status))
  }

  /** `applications.map(app => app.id === id ? { ...app, notes: text } : app)`. */
  function SetNotesById(apps: seq<Application>, id: string, text: string): (r: seq<Application>)
    ensures |r| == |apps|
    ensures forall i :: 0 <= i < |apps| && apps[i].id == id ==> r[i] == apps[i].(notes := Some(text))
    ensures forall i :: 0 <= i < |apps| && apps[i].id != id ==> r[i] == apps[i]
  {
    ReplaceWhere(apps, HasId(id), WithNotes(text))
  }

  /** A status change keeps every id and every other field in place and reaches any of the
      five statuses from any current one; there is no transition rule. */
  lemma StatusChangeOnlyStatus(apps: seq<Application>, id: string, status: AppStatus)
    ensures forall i :: 0 <= i < |apps| ==>
      var r := SetStatusById(apps, id, status)[i];
      r.(status := apps[i].status) == apps[i]
      && (r.status == if apps[i].id == id then status else apps[i].status)
  {
  }

  /** A saved note reads back exactly as entered, the empty note included; it is then
      present, which differs from an application that never had one. */
  lemma NoteRoundTrip(apps: seq<Application>, id: string, text: string, i: int)
    requires 0 <= i < |apps| && apps[i].id == id
    ensures SetNotesById(apps, id, text)[i].notes == Some(text)
    ensures SetNotesById(apps, id, text)[i].notes.GetOr("") == text
    ensures SetNotesById(apps, id, text)[i].notes != None
  {
  }

  /** An id that no application has leaves the list as it was. */
  lemma UnknownIdChangesNothing(apps: seq<Application>, id: string, status: AppStatus, text: string)
    requires forall i :: 0 <= i < |apps| ==> apps[i].id != id
    ensures SetStatusById(apps, id, status) == apps
    ensures SetNotesById(apps, id, text) == apps
  {
  }

  /** A second status change on the same id overrides the first. */
  lemma StatusLastWriteWins(apps: seq<Application>, id: string, s1: AppStatus, s2: AppStatus)
    ensures SetStatusById(SetStatusById(apps, id, s1), id, s2) == SetStatusById(apps, id, s2)
  {
    var a, b := SetStatusById(SetStatusById(apps, id, s1), id, s2), SetStatusById(apps, id, s2);
    assert forall i :: 0 <= i < |a| ==> a[i] == b[i];
  }

  /** A second note on the same id overrides the first. */
  lemma NoteLastWriteWins(apps: seq<Application>, id: string, t1: string, t2: string)
    ensures SetNotesById(SetNotesById(apps, id, t1), id, t2) == SetNotesById(apps, id, t2)
  {
    var a, b := SetNotesById(SetNotesById(apps, id, t1), id, t2), SetNotesById(apps, id, t2);
    assert forall i :: 0 <= i < |a| ==> a[i] == b[i];
  }

  /** Status and note edits commute, whichever applications they address. */
  lemma StatusAndNoteCommute(apps: seq<Application>, id: string, other: string, s: AppStatus, t: string)
    ensures SetNotesById(SetStatusById(apps, id, s), other, t) == SetStatusById(SetNotesById(apps, other, t), id, s)
  {
    var a, b := SetNotesById(SetStatusById(apps, id, s), other, t), SetStatusById(SetNotesById(apps, other, t), id, s);
    assert forall i :: 0 <= i < |a| ==> a[i] == b[i];
  }

  /** In the fixtures, marking application "5" of job "5" as offered changes only that row. */
  lemma FixtureStatusChange(reason: string)
    ensures var apps := Api.GetJobApplications(Api.NetworkFailure(reason), "5").value;
      SetStatusById(apps, "5", Offered) == [apps[0], apps[1].(status := Offered)]
  {
    Api.JobFiveApplicationsFallback(reason);
  }

  /** The applicant cell, hard-wired to the two known users: it names one of three people,
      and only user "1" is shown with a user name, that of the seeker seed account "muser". */
  function ApplicantLabel(userId: string): (r: string)
    ensures r in {"John Doe (muser)", "Jane Smith", "Unknown User"}
    ensures r == "John Doe (muser)" <==> userId == "1"
    ensures r == "Jane Smith" <==> userId == "3"
  {
    if userId == "1" then "John Doe (muser)"
    else if userId == "3" then "Jane Smith"
    else "Unknown User"
  }

  // ---- The panel's state ----

  class ApplicationsManager {
    var jobs: seq<Job>
    var applications: seq<Application>
    var selectedJobId: string
    var selectedApplication: Option<Application>
    var isChangeStatusOpen: bool
    var isAddNoteOpen: bool
    var isUpdatingStatus: bool
    var isAddingNote: bool
    var newStatus: AppStatus
    var noteText: string

    constructor (jobs: seq<Job>)
      ensures this.jobs == jobs && applications == [] && selectedJobId == ""
      ensures selectedApplication.None? && !isChangeStatusOpen && !isAddNoteOpen
      ensures !isUpdatingStatus && !isAddingNote && newStatus == Pending && noteText == ""
    {
      this.jobs := jobs;
      applications, selectedJobId, selectedApplication := [], "", None;
      isChangeStatusOpen, isAddNoteOpen, isUpdatingStatus, isAddingNote := false, false, false, false;
      newStatus, noteText := Pending, "";
    }

    /** The first effect: with jobs and no selection, the first job is selected. */
    method SelectFirstJob()
      modifies this
      ensures if old(jobs) != [] && old(selectedJobId) == "" then selectedJobId == old(jobs)[0].id
              else selectedJobId == old(selectedJobId)
      ensures jobs == old(jobs) && applications == old(applications)
      ensures selectedApplication == old(selectedApplication) && newStatus == old(newStatus)
      ensures noteText == old(noteText) && isChangeStatusOpen == old(isChangeStatusOpen)
      ensures isAddNoteOpen == old(isAddNoteOpen)
      ensures isUpdatingStatus == old(isUpdatingStatus) && isAddingNote == old(isAddingNote)
    {
      if |jobs| > 0 && selectedJobId == "" {
        selectedJobId := jobs[0].id;
      }
    }

    /** Picking a job in the job `<Select>`. */
    method SelectJob(jobId: string)
      modifies this
      ensures selectedJobId == jobId
      ensures jobs == old(jobs) && applications == old(applications)
      ensures selectedApplication == old(selectedApplication) && newStatus == old(newStatus)
      ensures noteText == old(noteText) && isChangeStatusOpen == old(isChangeStatusOpen)
      ensures isAddNoteOpen == old(isAddNoteOpen)
      ensures isUpdatingStatus == old(isUpdatingStatus) && isAddingNote == old(isAddingNote)
    {
      selectedJobId := jobId;
    }

    /** The second effect: with a selected job, a resolved read replaces the held list and
        a rejected one leaves it (only a toast appears). */
    method LoadApplications(read: Api.Outcome<seq<Application>>)
      modifies this
      ensures applications == if old(selectedJobId) != "" && read.Resolved? then read.value
                              else old(applications)
      ensures jobs == old(jobs) && selectedJobId == old(selectedJobId)
      ensures selectedApplication == old(selectedApplication) && newStatus == old(newStatus)
      ensures noteText == old(noteText) && isChangeStatusOpen == old(isChangeStatusOpen)
      ensures isAddNoteOpen == old(isAddNoteOpen)
      ensures isUpdatingStatus == old(isUpdatingStatus) && isAddingNote == old(isAddingNote)
    {
      if selectedJobId == "" {
        return;
      }
      if read.Resolved? {
        applications := read.value;
      }
    }

    /** `handleChangeStatus`: the dialog opens pre-set to the application's current status. */
    method ChangeStatus(app: Application)
      modifies this
      ensures selectedApplication == Some(app) && newStatus == app.status && isChangeStatusOpen
      ensures jobs == old(jobs) && applications == old(applications)
      ensures selectedJobId == old(selectedJobId) && noteText == old(noteText)
      ensures isAddNoteOpen == old(isAddNoteOpen)
      ensures isUpdatingStatus == old(isUpdatingStatus) && isAddingNote == old(isAddingNote)
    {
      selectedApplication := Some(app);
      newStatus := app.status;
      isChangeStatusOpen := true;
    }

    /** `handleAddNote`: the dialog opens pre-filled with the notes, or "" when there are none. */
    method AddNote(app: Application)
      modifies this
      ensures selectedApplication == Some(app) && noteText == app.notes.GetOr("") && isAddNoteOpen
      ensures app.notes.Some? ==> noteText == app.notes.value
      ensures app.notes.None? ==> noteText == ""
      ensures jobs == old(jobs) && applications == old(applications)
      ensures selectedJobId == old(selectedJobId) && newStatus == old(newStatus)
      ensures isChangeStatusOpen == old(isChangeStatusOpen)
      ensures isUpdatingStatus == old(isUpdatingStatus) && isAddingNote == old(isAddingNote)
    {
      selectedApplication := Some(app);
      noteText := app.notes.GetOr("");
      isAddNoteOpen := true;
    }

    /** The status `<Select>` in the dialog: every one of the five statuses is offered. */
    method PickStatus(status: AppStatus)
      modifies this
      ensures newStatus == status
      ensures jobs == old(jobs) && applications == old(applications)
      ensures selectedJobId == old(selectedJobId) && selectedApplication == old(selectedApplication)
      ensures noteText == old(noteText) && isChangeStatusOpen == old(isChangeStatusOpen)
      ensures isAddNoteOpen == old(isAddNoteOpen)
      ensures isUpdatingStatus == old(isUpdatingStatus) && isAddingNote == old(isAddingNote)
    {
      newStatus := status;
    }

    /** Typing in the note box. */
    method EditNote(text: string)
      modifies this
      ensures noteText == text
      ensures jobs == old(jobs) && applications == old(applications)
      ensures selectedJobId == old(selectedJobId) && selectedApplication == old(selectedApplication)
      ensures newStatus == old(newStatus) && isChangeStatusOpen == old(isChangeStatusOpen)
      ensures isAddNoteOpen == old(isAddNoteOpen)
      ensures isUpdatingStatus == old(isUpdatingStatus) && isAddingNote == old(isAddingNote)
    {
      noteText := text;
    }

    /** `submitStatusChange`: with no selected application nothing changes; otherwise the
        picked status is written to the applications with the selected id and the dialog
        closes. The API call is commented out in the source. */
    method SubmitStatusChange()
      modifies this
      ensures old(selectedApplication).None? ==>
        applications == old(applications) && isChangeStatusOpen == old(isChangeStatusOpen)
      ensures old(selectedApplication).Some? ==>
        applications == SetStatusById(old(applications), old(selectedApplication).value.id, old(newStatus))
        && !isChangeStatusOpen
      ensures isUpdatingStatus == (old(selectedApplication).None? && old(isUpdatingStatus))
      ensures jobs == old(jobs) && selectedJobId == old(selectedJobId)
      ensures selectedApplication == old(selectedApplication) && newStatus == old(newStatus)
      ensures noteText == old(noteText) && isAddNoteOpen == old(isAddNoteOpen)
      ensures isAddingNote == old(isAddingNote)
    {
      if selectedApplication.None? {
        return;
      }
      isUpdatingStatus := true;
      applications := SetStatusById(applications, selectedApplication.value.id, newStatus);
      isChangeStatusOpen := false;
      isUpdatingStatus := false;
    }

    /** `submitNote`: with no selected application nothing changes; otherwise the entered
        text becomes the notes of the applications with the selected id. */
    method SubmitNote()
      modifies this
      ensures old(selectedApplication).None? ==>
        applications == old(applications) && isAddNoteOpen == old(isAddNoteOpen)
      ensures old(selectedApplication).Some? ==>
        applications == SetNotesById(old(applications), old(selectedApplication).value.id, old(noteText))
        && !isAddNoteOpen
      ensures isAddingNote == (old(selectedApplication).None? && old(isAddingNote))
      ensures jobs == old(jobs) && selectedJobId == old(selectedJobId)
      ensures selectedApplication == old(selectedApplication) && newStatus == old(newStatus)
      ensures noteText == old(noteText) && isChangeStatusOpen == old(isChangeStatusOpen)
      ensures isUpdatingStatus == old(isUpdatingStatus)
    {
      if selectedApplication.None? {
        return;
      }
      isAddingNote := true;
      applications := SetNotesById(applications, selectedApplication.value.id, noteText);
      isAddNoteOpen := false;
      isAddingNote := false;
    }
  }
}
