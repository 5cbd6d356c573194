/** The seeker's paginated application table (src/components/seeker/ApplicationsList.tsx):
    the page buttons and the job-title and company cells, which are looked up from a table
    hard-wired to the five fixture jobs. */
module ApplicationsList {
  import opened Wrappers
  import opened Types
  import opened Pagination
  import Api

  /** The job-title cell: one `jobId === ... && title` term per fixture job. It agrees with
      the fixtures: a fixture job's id shows that job's title, and an unknown id shows
      nothing. */
  function JobTitle(jobId: string): (r: string)
    ensures forall i :: 0 <= i < |Api.MockJobs()| && Api.MockJobs()[i].id == jobId ==> r == Api.MockJobs()[i].title
    ensures (forall i :: 0 <= i < |Api.MockJobs()| ==> Api.MockJobs()[i].id != jobId) ==> r == ""
  {
    var jobs := Api.MockJobs();
    assert jobs[0].id == "1" && jobs[1].id == "2" && jobs[2].id == "3" && jobs[3].id == "4" && jobs[4].id == "5";
    if jobId == "1" then "Senior Frontend Developer"
    else if jobId == "2" then "Backend Engineer"
    else if jobId == "3" then "DevOps Specialist"
    else if jobId == "4" then "UX/UI Designer"
    else if jobId == "5" then "Data Scientist"
    else ""
  }

  /** The company cell, likewise the company of the fixture job with that id, or nothing. */
  function CompanyName(jobId: string): (r: string)
    ensures forall i :: 0 <= i < |Api.MockJobs()| && Api.MockJobs()[i].id == jobId ==> r == Api.MockJobs()[i].company
    ensures (forall i :: 0 <= i < |Api.MockJobs()| ==> Api.MockJobs()[i].id != jobId) ==> r == ""
  {
    var jobs := Api.MockJobs();
    assert jobs[0].id == "1" && jobs[1].id == "2" && jobs[2].id == "3" && jobs[3].id == "4" && jobs[4].id == "5";
    if jobId == "1" || jobId == "2" || jobId == "5" then "TechCorp Inc."
    else if jobId == "3" then "CloudSystems LLC"
    else if jobId == "4" then "DesignHub"
    else ""
  }

  /** The component's page state next to its props. */
  class ApplicationsList {
    var applications: seq<Application>
    var showPagination: bool
    var currentPage: int

    predicate Valid()
      reads this
    {
      currentPage >= 1
    }

    /** The empty-state message for no applications, otherwise the current page. */
    function View(): (r: Listing<Application>)
      reads this
      ensures r.EmptyMessage? <==> applications == []
      ensures r.Table? ==> r.rows == PageItems(applications, currentPage)
    {
      Render(applications, currentPage, showPagination)
    }

    constructor (applications: seq<Application>, showPagination: bool)
      ensures Valid()
      ensures this.applications == applications && this.showPagination == showPagination
      ensures currentPage == 1
    {
      this.applications, this.showPagination := applications, showPagination;
      currentPage := 1;
    }

    /** The Previous button. */
    method PreviousPage()
      requires Valid()
      modifies this
      ensures Valid()
      ensures currentPage == Pagination.PreviousPage(old(currentPage))
      ensures old(currentPage) > 1 ==> currentPage == old(currentPage) - 1
      ensures applications == old(applications) && showPagination == old(showPagination)
    {
      currentPage := Pagination.PreviousPage(currentPage);
    }

    /** The Next button, present only with the pagination bar. */
    method NextPage()
      requires Valid() && ShowPagination(showPagination, |applications|)
      modifies this
      ensures Valid()
      ensures currentPage == Pagination.NextPage(old(currentPage), TotalPages(|applications|))
      ensures currentPage <= TotalPages(|applications|)
      ensures applications == old(applications) && showPagination == old(showPagination)
    {
      currentPage := Pagination.NextPage(currentPage, TotalPages(|applications|));
    }

    /** The numbered link at `index`. */
    method GoToPage(index: nat)
      requires Valid() && ShowPagination(showPagination, |applications|)
      requires index < TotalPages(|applications|)
      modifies this
      ensures Valid()
      ensures currentPage == index + 1 && PageItems(applications, currentPage) != []
      ensures applications == old(applications) && showPagination == old(showPagination)
    {
      currentPage := PageLinks(TotalPages(|applications|))[index];
      PageInRange(applications, currentPage);
    }
  }
}
