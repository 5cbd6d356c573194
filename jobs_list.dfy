/** The employer's paginated job table (src/components/employer/JobsList.tsx): the page
    buttons, the delete dialog, the edit hand-off, and the per-row status and
    application-count labels. */
module JobsList {
  import opened Wrappers
  import opened Types
  import opened Text
  import opened Seqs
  import opened Pagination
  import Api

  /** `s.charAt(0).toUpperCase() + s.slice(1)`. */
  function Capitalize(s: string): (r: string)
    ensures |r| == |s|
    ensures s != [] ==> r[0] == UpperChar(s[0]) && r[1..] == s[1..]
  {
    if s == [] then [] else [UpperChar(s[0])] + s[1..]
  }

  /** Lower-casing a capitalized word without capitals gives back the word. */
  lemma LowerUndoesCapitalize(s: string)
    requires forall i :: 0 <= i < |s| ==> !IsAsciiUpper(s[i])
    ensures Lower(Capitalize(s)) == s
  {
    var r := Capitalize(s);
    if s != [] {
      assert Lower(r)[0] == LowerChar(UpperChar(s[0])) == s[0];
      assert forall i :: 1 <= i < |s| ==> Lower(r)[i] == LowerChar(s[i]) == s[i];
    }
  }

  /** The status badge text: the status tag with a capital initial, so that lower-casing the
      badge gives back the tag. */
  function StatusLabel(status: JobStatus): (r: string)
    ensures r != [] && IsAsciiUpper(r[0])
    ensures Lower(r) == JobStatusName(status)
  {
    var tag := JobStatusName(status);
    assert tag == "active" || tag == "closed";
    assert forall i :: 0 <= i < |tag| ==> !IsAsciiUpper(tag[i]);
    LowerUndoesCapitalize(tag);
    Capitalize(tag)
  }

  /** The badge reads "Active" or "Closed", and it names the status it shows. */
  lemma StatusLabels(a: JobStatus, b: JobStatus)
    ensures StatusLabel(Active) == "Active" && StatusLabel(Closed) == "Closed"
    ensures StatusLabel(a) == StatusLabel(b) ==> a == b
  {
    assert StatusLabel(Active) == "Active";
    assert StatusLabel(Closed) == "Closed";
  }

  /** The placeholder application count shown per job. */
  function ApplicationCount(jobId: string): (r: string)
    ensures jobId == "1" ==> r == "4"
    ensures jobId == "2" ==> r == "2"
    ensures jobId == "5" ==> r == "1"
    ensures jobId !in {"1", "2", "5"} ==> r == "0"
  {
    if jobId == "1" then "4"
    else if jobId == "2" then "2"
    else if jobId == "5" then "1"
    else "0"
  }

  /** The count column is hard-wired: for job "1" it shows "4" although the application
      fixtures hold a single application for that job. */
  lemma CountDisagreesWithFixtures()
    ensures ApplicationCount("1") == "4"
    ensures Count(Api.MockApplications(), Api.ApplicationFor("1")) == 1
  {
  }

  /** The component's own state next to its props `jobs` and `showPagination`. */
  class JobsList {
    var jobs: seq<Job>
    var showPagination: bool
    var currentPage: int
    var editingJob: Option<Job>
    var jobToDelete: Option<Job>
    var isDeleteDialogOpen: bool
    var isDeleting: bool

    /** The page number never drops below 1. */
    predicate Valid()
      reads this
    {
      currentPage >= 1
    }

    /** What the component renders for the current page. */
    function View(): (r: Listing<Job>)
      reads this
      ensures r.EmptyMessage? <==> jobs == []
      ensures r.Table? ==> r.rows == PageItems(jobs, currentPage)
    {
      Render(jobs, currentPage, showPagination)
    }

    /** Mounting starts on page 1 with no dialog open. */
    constructor (jobs: seq<Job>, showPagination: bool)
      ensures Valid()
      ensures this.jobs == jobs && this.showPagination == showPagination
      ensures currentPage == 1 && editingJob.None? && jobToDelete.None?
      ensures !isDeleteDialogOpen && !isDeleting
    {
      this.jobs, this.showPagination := jobs, showPagination;
      currentPage := 1;
      editingJob, jobToDelete := None, None;
      isDeleteDialogOpen, isDeleting := false, false;
    }

    /** The Previous button. */
    method PreviousPage()
      requires Valid()
      modifies this
      ensures Valid()
      ensures currentPage == Pagination.PreviousPage(old(currentPage))
      ensures old(currentPage) > 1 ==> currentPage == old(currentPage) - 1
      ensures jobs == old(jobs) && showPagination == old(showPagination)
      ensures editingJob == old(editingJob) && jobToDelete == old(jobToDelete)
      ensures isDeleteDialogOpen == old(isDeleteDialogOpen) && isDeleting == old(isDeleting)
    {
      currentPage := Pagination.PreviousPage(currentPage);
    }

    /** The Next button; it exists only while the pagination bar is shown. */
    method NextPage()
      requires Valid() && ShowPagination(showPagination, |jobs|)
      modifies this
      ensures Valid()
      ensures currentPage == Pagination.NextPage(old(currentPage), TotalPages(|jobs|))
      ensures currentPage <= TotalPages(|jobs|)
      ensures jobs == old(jobs) && showPagination == old(showPagination)
      ensures editingJob == old(editingJob) && jobToDelete == old(jobToDelete)
      ensures isDeleteDialogOpen == old(isDeleteDialogOpen) && isDeleting == old(isDeleting)
    {
      currentPage := Pagination.NextPage(currentPage, TotalPages(|jobs|));
    }

    /** The numbered link at `index`. */
    method GoToPage(index: nat)
      requires Valid() && ShowPagination(showPagination, |jobs|)
      requires index < TotalPages(|jobs|)
      modifies this
      ensures Valid()
      ensures currentPage == index + 1 && PageItems(jobs, currentPage) != []
      ensures jobs == old(jobs) && showPagination == old(showPagination)
      ensures editingJob == old(editingJob) && jobToDelete == old(jobToDelete)
      ensures isDeleteDialogOpen == old(isDeleteDialogOpen) && isDeleting == old(isDeleting)
    {
      currentPage := PageLinks(TotalPages(|jobs|))[index];
      PageInRange(jobs, currentPage);
    }

    /** The Edit menu item opens the form on `job`. */
    method EditClick(job: Job)
      modifies this
      ensures editingJob == Some(job)
      ensures jobs == old(jobs) && showPagination == old(showPagination)
      ensures currentPage == old(currentPage) && jobToDelete == old(jobToDelete)
      ensures isDeleteDialogOpen == old(isDeleteDialogOpen) && isDeleting == old(isDeleting)
    {
      editingJob := Some(job);
    }

    /** `handleJobUpdate`: the edited job goes to `onJobUpdated` and the form closes. */
    method JobUpdate(updatedJob: Job) returns (reported: Job)
      modifies this
      ensures reported == updatedJob && editingJob.None?
      ensures jobs == old(jobs) && showPagination == old(showPagination)
      ensures currentPage == old(currentPage) && jobToDelete == old(jobToDelete)
      ensures isDeleteDialogOpen == old(isDeleteDialogOpen) && isDeleting == old(isDeleting)
    {
      reported := updatedJob;
      editingJob := None;
    }

    /** `handleDeleteClick`: remember the job and open the confirmation dialog. */
    method DeleteClick(job: Job)
      modifies this
      ensures jobToDelete == Some(job) && isDeleteDialogOpen
      ensures jobs == old(jobs) && showPagination == old(showPagination)
      ensures currentPage == old(currentPage) && editingJob == old(editingJob)
      ensures isDeleting == old(isDeleting)
    {
      jobToDelete := Some(job);
      isDeleteDialogOpen := true;
    }

    /** `handleDeleteConfirm`: with no chosen job nothing happens; otherwise exactly the
        chosen job's id goes to `onJobDeleted` and the dialog closes. The chosen job itself
        is not cleared, and the API call is commented out in the source. */
    method DeleteConfirm() returns (deletedId: Option<string>)
      modifies this
      ensures old(jobToDelete).None? ==>
        deletedId.None? && isDeleteDialogOpen == old(isDeleteDialogOpen)
      ensures old(jobToDelete).Some? ==>
        deletedId == Some(old(jobToDelete).value.id) && !isDeleteDialogOpen
      ensures isDeleting == (old(jobToDelete).None? && old(isDeleting))
      ensures jobs == old(jobs) && showPagination == old(showPagination)
      ensures currentPage == old(currentPage) && editingJob == old(editingJob)
      ensures jobToDelete == old(jobToDelete)
    {
      if jobToDelete.None? {
        return None;
      }
      isDeleting := true;
      deletedId := Some(jobToDelete.value.id);
      isDeleteDialogOpen := false;
      isDeleting := false;
    }
  }
}
