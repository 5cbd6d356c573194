/** The public job listing page (src/pages/Jobs.tsx): a search term that never looks at the
    location, a separate case-insensitive location filter, an exact job-type filter, and the
    list of distinct locations offered in the location `<Select>`. */
module JobsPage {
  import opened Wrappers
  import opened Types
  import opened Text
  import opened Seqs
  import JobSearch

  /** The lower-cased term occurs in the lower-cased title, company or description. */
  predicate MatchesTerm(job: Job, term: string) {
    Contains(Lower(job.title), term) || Contains(Lower(job.company), term)
    || Contains(Lower(job.description), term)
  }

  function TermMatch(term: string): Job -> bool {
    (j: Job) => MatchesTerm(j, term)
  }

  /** The lower-cased location contains the lower-cased filter value. */
  function LocationMatch(filter: string): Job -> bool {
    (j: Job) => Contains(Lower(j.location), Lower(filter))
  }

  function TypeMatch(filter: string): Job -> bool {
    (j: Job) => JobTypeName(j.jobType) == filter
  }

  /** A filter value is applied only when it is truthy. */
  predicate Truthy(filter: Option<string>) {
    filter.Some? && filter.value != ""
  }

  /** The reference reading of the three filters together. */
  predicate Admits(job: Job, searchTerm: string, locationFilter: Option<string>, jobTypeFilter: Option<string>) {
    (searchTerm == "" || MatchesTerm(job, Lower(searchTerm)))
    && (!Truthy(locationFilter) || Contains(Lower(job.location), Lower(locationFilter.value)))
    && (!Truthy(jobTypeFilter) || JobTypeName(job.jobType) == jobTypeFilter.value)
  }

  function AdmittedBy(searchTerm: string, locationFilter: Option<string>, jobTypeFilter: Option<string>): Job -> bool {
    (j: Job) => Admits(j, searchTerm, locationFilter, jobTypeFilter)
  }

  /** The term and location stages, each only when set: together one order-preserving
      filter on the conjunction of their tests. */
  function TermAndLocation(jobs: seq<Job>, searchTerm: string, locationFilter: Option<string>): (r: seq<Job>)
    ensures r == Filter(jobs, TermAndLocationMatch(searchTerm, locationFilter))
  {
    var p := TermAndLocationMatch(searchTerm, locationFilter);
    var afterTerm := if searchTerm != "" then Filter(jobs, TermMatch(Lower(searchTerm))) else jobs;
    if Truthy(locationFilter) then
      var l := LocationMatch(locationFilter.value);
      if searchTerm != "" then
        TermThenLocation(jobs, searchTerm, locationFilter);
        Filter(afterTerm, l)
      else
        FilterExtensional(jobs, l, p);
        Filter(afterTerm, l)
    else if searchTerm != "" then
      FilterExtensional(jobs, TermMatch(Lower(searchTerm)), p);
      afterTerm
    else
      FilterKeepsAll(jobs, p);
      afterTerm
  }

  /** Both stages set: the location filter over the term filter's result. */
  lemma TermThenLocation(jobs: seq<Job>, searchTerm: string, locationFilter: Option<string>)
    requires Truthy(locationFilter)
    ensures Filter(Filter(jobs, TermMatch(Lower(searchTerm))), LocationMatch(locationFilter.value)) ==
      Filter(jobs, TermAndLocationMatch(searchTerm, locationFilter))
  {
    var t, l := TermMatch(Lower(searchTerm)), LocationMatch(locationFilter.value);
    FilterFilter(jobs, t, l);
    FilterExtensional(jobs, x => t(x) && l(x), TermAndLocationMatch(searchTerm, locationFilter));
  }

  /** The filter effect: the term, location and type filters in turn, each only when set. */
  function FilteredJobs(jobs: seq<Job>, searchTerm: string, locationFilter: Option<string>,
                        jobTypeFilter: Option<string>): (r: seq<Job>)
    ensures |r| <= |jobs|
    ensures searchTerm == "" && locationFilter.None? && jobTypeFilter.None? ==> r == jobs
  {
    var afterLocation := TermAndLocation(jobs, searchTerm, locationFilter);
    if Truthy(jobTypeFilter) then Filter(afterLocation, TypeMatch(jobTypeFilter.value)) else afterLocation
  }

  predicate AdmitsTermAndLocation(job: Job, searchTerm: string, locationFilter: Option<string>) {
    (searchTerm == "" || MatchesTerm(job, Lower(searchTerm)))
    && (!Truthy(locationFilter) || Contains(Lower(job.location), Lower(locationFilter.value)))
  }

  function TermAndLocationMatch(searchTerm: string, locationFilter: Option<string>): Job -> bool {
    (j: Job) => AdmitsTermAndLocation(j, searchTerm, locationFilter)
  }

  /** The chained filters are one order-preserving filter on the conjunction. */
  lemma FilteredIsIntersection(jobs: seq<Job>, searchTerm: string,
                               locationFilter: Option<string>, jobTypeFilter: Option<string>)
    ensures FilteredJobs(jobs, searchTerm, locationFilter, jobTypeFilter) ==
      Filter(jobs, AdmittedBy(searchTerm, locationFilter, jobTypeFilter))
    ensures IsSubsequence(FilteredJobs(jobs, searchTerm, locationFilter, jobTypeFilter), jobs)
  {
    var p := TermAndLocationMatch(searchTerm, locationFilter);
    var all := AdmittedBy(searchTerm, locationFilter, jobTypeFilter);
    var stage := TermAndLocation(jobs, searchTerm, locationFilter);
    if Truthy(jobTypeFilter) {
      var y := TypeMatch(jobTypeFilter.value);
      assert FilteredJobs(jobs, searchTerm, locationFilter, jobTypeFilter) == Filter(stage, y);
      FilterFilterAs(jobs, p, y, all);
    } else {
      assert FilteredJobs(jobs, searchTerm, locationFilter, jobTypeFilter) == stage;
      FilterExtensional(jobs, p, all);
      assert stage == Filter(jobs, all);
    }
    FilterIsSubsequence(jobs, all);
  }

  /** A job is listed exactly when it is in the list and every set filter admits it. */
  lemma FilteredMembership(jobs: seq<Job>, searchTerm: string, locationFilter: Option<string>,
                           jobTypeFilter: Option<string>, job: Job)
    ensures job in FilteredJobs(jobs, searchTerm, locationFilter, jobTypeFilter) <==>
      job in jobs && Admits(job, searchTerm, locationFilter, jobTypeFilter)
  {
    FilteredIsIntersection(jobs, searchTerm, locationFilter, jobTypeFilter);
    FilterMembership(jobs, AdmittedBy(searchTerm, locationFilter, jobTypeFilter), job);
  }

  /** The search term never consults the location: moving a job elsewhere does not change
      whether the term matches it. */
  lemma TermIgnoresLocation(job: Job, term: string, location: string)
    ensures MatchesTerm(job.(location := location), term) == MatchesTerm(job, term)
  {
  }

  /** A term found only in a job's location tells the two search boxes apart: the seeker's
      search keeps the job, and this page's search drops it. */
  lemma LocationOnlyTerm(job: Job, term: string)
    requires Contains(Lower(job.location), Lower(term))
    requires !MatchesTerm(job, Lower(term))
    ensures JobSearch.SearchResults([job], term, None) == [job]
    ensures FilteredJobs([job], term, None, None) == []
  {
    assert JobSearch.TermMatch(Lower(term))(job);
    assert !TermAndLocationMatch(term, None)(job);
    assert [job][1..] == [];
  }

  /** A job whose only mention of "remote" is its location. */
  const RemoteOnlyByLocation := Job("7", "QA", "Acme", "Remote", "Tests", "", "", Contract, "", "2", Active)

  /** "remote" occurs in that job's location and nowhere else that this page's term reads. */
  lemma RemoteOnlyInLocation()
    ensures Contains(Lower(RemoteOnlyByLocation.location), Lower("remote"))
    ensures !MatchesTerm(RemoteOnlyByLocation, Lower("remote"))
  {
    assert Lower("remote") == "remote" && Lower("Remote") == "remote";
    assert |Lower("QA")| < 6 && |Lower("Acme")| < 6 && |Lower("Tests")| < 6;
  }

  /** The seeker's search finds that job by its location. */
  lemma SeekerSearchFindsLocation()
    ensures JobSearch.SearchResults([RemoteOnlyByLocation], "remote", None) == [RemoteOnlyByLocation]
  {
    RemoteOnlyInLocation();
    LocationOnlyTerm(RemoteOnlyByLocation, "remote");
  }

  /** This page's term does not find it: the two search boxes differ. */
  lemma PageSearchIgnoresLocation()
    ensures FilteredJobs([RemoteOnlyByLocation], "remote", None, None) == []
  {
    RemoteOnlyInLocation();
    LocationOnlyTerm(RemoteOnlyByLocation, "remote");
  }

  /** The location filter is case-insensitive: it depends only on the lower-cased value. */
  lemma LocationFilterIgnoresCase(job: Job, filter: string)
    ensures LocationMatch(filter)(job) == LocationMatch(Lower(filter))(job)
  {
    LowerIdempotent(filter);
  }

  /** `[...new Set(jobs.map(job => job.location))]`. */
  function Locations(jobs: seq<Job>): (r: seq<string>)
    ensures forall i :: 0 <= i < |jobs| ==> jobs[i].location in r
    ensures forall i :: 0 <= i < |r| ==> exists k :: 0 <= k < |jobs| && jobs[k].location == r[i]
  {
    var all := seq(|jobs|, i requires 0 <= i < |jobs| => jobs[i].location);
    assert forall i :: 0 <= i < |jobs| ==> all[i] == jobs[i].location;
    Distinct(all)
  }

  /** Each location is offered once, in the order in which it first appears in the list. */
  lemma LocationsDistinctInOrder(jobs: seq<Job>)
    ensures forall i, j :: 0 <= i < j < |Locations(jobs)| ==> Locations(jobs)[i] != Locations(jobs)[j]
    ensures var all := seq(|jobs|, i requires 0 <= i < |jobs| => jobs[i].location);
      forall i, j :: 0 <= i < j < |Locations(jobs)| ==>
        IndexOf(all, Locations(jobs)[i]) < IndexOf(all, Locations(jobs)[j])
  {
    var all := seq(|jobs|, i requires 0 <= i < |jobs| => jobs[i].location);
    DistinctNoDuplicates(all);
    DistinctFirstOccurrenceOrder(all);
  }

  /** How far back a date label reaches, in days: "Today" 0, "Yesterday" 1, "n days ago" n,
      and a full date beyond all of them. */
  function Reach(shown: JobSearch.DateLabel): nat {
    match shown
    case Today => 0
    case Yesterday => 1
    case DaysAgo(n) => n
    case LocaleDate => 7
  }

  /** This page's `formatDate` is the seeker panel's, and its labels are ordered by distance:
      a date farther from now never gets a nearer label than a closer date. */
  lemma FormatDateMonotone(nearMs: int, farMs: int, nowMs: int)
    requires JobSearch.Abs(nowMs - nearMs) <= JobSearch.Abs(nowMs - farMs)
    ensures Reach(JobSearch.FormatDate(nearMs, nowMs)) <= Reach(JobSearch.FormatDate(farMs, nowMs))
  {
  }
}
