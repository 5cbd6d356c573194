# TalentLink job board: a verified model

TalentLink is a small job board. Job seekers search postings, apply with an uploaded
resume and follow their applications. Employers post and edit jobs and review the
applications to them. It has two parts:

- a React/TypeScript front end, whose data comes from one API façade (`src/services/api.ts`).
  When `fetch` itself fails, the façade's reads fall back to built-in fixtures.
- a Flask back end (`app.py`) over SQLite tables of users, jobs, applications and resumes.

This project models the logic of both parts in Dafny and proves what each part promises.

- **Shared records** (`types.dfy`): `User`, `Job`, `Resume`, `Application` and the two dashboards'
  statistics records. Each closed string union is a Dafny enum, with its tag names and an inverse parser.
- **The API façade** (`api.dfy`): a remote call is either a network failure or a response that
  arrived, and a response is ok or an error. A network failure makes a read fall back to the
  fixture filtered by its key. An HTTP error always propagates, because `handleResponse`'s rejection
  is returned without `await` and so escapes the `try`. Writes never fall back.
- **Searching** (`job_search.dfy`, `jobs_page.dfy`): the seeker panel and the public listing page
  filter in two different ways. Both are proved to be one order-preserving filter on the conjunction
  of their tests. The one real difference is proved by a concrete job: only the seeker's search
  term looks at the location.
- **Paginated lists** (`pagination.dfy`, `jobs_list.dfy`, `applications_list.dfy`):
  - the page slice, `Math.ceil(n / 10)` and the clamped Previous/Next buttons;
  - the pages, read in order, give back the list exactly;
  - the dashboard overviews show the first five rows.
- **Component state** (`applications_manager.dfy`, `employer_dashboard.dfy`, `seeker_dashboard.dfy`,
  `post_job_form.dfy`, `resume_uploader.dfy`, `register_page.dfy`, `auth.dfy`, `pricing.dfy`):
  - each React component with state is a class whose fields are that state;
  - each handler is a method whose contract gives the whole new state;
  - the list edits (replace by id, prepend, remove by id, append) are functions with their own laws.
- **Form validators**: the registration, job and resume-file checks are first-failure-wins
  chains. The registration e-mail regular expression `^[^\s@]+@[^\s@]+\.[^\s@]+$` is implemented
  as a small scanner. The scanner is proved to accept exactly the strings the pattern describes.
- **Back end** (`backend_rows.dfy`, `backend.dfy`): the four tables are sequences in one `Store` class,
  with a per-table id counter standing in for `lastrowid`.
  - Each route handler is a method returning a status code and a body.
  - The store invariant: ids are distinct and below the counter; usernames and e-mails are unique;
    there is at most one application per (job, user) pair and at most one default resume per user.
    Every handler preserves it.
  - Set-default leaves exactly one default.
  - The job-update whitelist maps `jobType` to the `job_type` column and ignores every other key.
  - The statistics routes are counts, with proved relations between them.

A discrepancy in the source, modelled as written: the application count that `JobsList` shows for
a job is a hard-coded table ("4" for job "1"). The fixture data holds one application for job "1"
(`JobsList.CountDisagreesWithFixtures`).

## Model

| member | source | states |
|---|---|---|
| Types.ParseJobType | src/types/index.ts:18 | reading a job-type tag gives back the one job type whose tag it is, and nothing for any other string |
| Types.ParseAppStatus | src/types/index.ts:38 | reading a status tag gives back the one application status whose tag it is, and nothing for any other string |
| Types.TagNamesInjective | src/types/index.ts:6-38 | each closed union (role, job type, job status, application status) has pairwise different tags, so each value is exactly one of them |
| Types.TagNamesNonEmpty | src/types/index.ts:18-38 | no job type or application status is written as the empty string |
| Api.HandleResponse | src/services/api.ts:8-14 | a response resolves iff it is ok, to its body; otherwise it throws, with the server's error message when one is given and exactly "API Error" when it is empty |
| Api.ReadWithFallback | src/services/api.ts:18-26 | a read falls back to the fixture only when `fetch` throws; an arrived response is handled as is, so it throws exactly for an HTTP error |
| Api.Write | src/services/api.ts:41-53 | a write resolves only for an ok response, to its body; a network failure is rethrown, never answered with fixture data |
| Api.FindJob | src/services/api.ts:33-37 | the found job is in the list and has the id; nothing is found iff no job has the id |
| Api.GetJobById | src/services/api.ts:28-39 | on a network failure the fixture job with the id is returned, or "Job not found" is thrown; an arrived response is handled as is |
| Api.GetJobs | src/services/api.ts:18-26 | when `fetch` throws the result is all fixture jobs; an arrived response gives its body when ok and throws when not |
| Api.GetEmployerJobs | src/services/api.ts:81-90 | when `fetch` throws the result is an order-preserving subsequence of the fixture jobs holding exactly those with the employer id; an HTTP error throws |
| Api.GetApplications | src/services/api.ts:95-103 | when `fetch` throws the result is an order-preserving subsequence of the fixture applications holding exactly the user's; an HTTP error throws |
| Api.GetJobApplications | src/services/api.ts:133-141 | when `fetch` throws the result is an order-preserving subsequence of the fixture applications holding exactly those to the job; an HTTP error throws |
| Api.GetUserResumes | src/services/api.ts:146-154 | when `fetch` throws the result is an order-preserving subsequence of the fixture resumes holding exactly the user's; an HTTP error throws |
| Api.GetEmployerStats | src/services/api.ts:196-204 | when `fetch` throws the result is the fixed fixture counts 3, 3, 4, 2, 1 whatever the id; an HTTP error throws |
| Api.GetSeekerStats | src/services/api.ts:206-214 | when `fetch` throws the result is the fixed fixture counts 4, 1, 1, 1, 0 whatever the id; an HTTP error throws |
| Api.EmployerTwoFallback | src/services/api.ts:217-286 | for employer "2" the fallback is the jobs with ids 1, 2 and 5, in that order |
| Api.JobFiveApplicationsFallback | src/services/api.ts:133-141 | for job "5" the fallback is the applications with ids 3 and 5 |
| Api.UserOneApplicationsFallback | src/services/api.ts:95-103 | concrete fallback list of user "1"'s applications |
| Api.UserOneResumesFallback | src/services/api.ts:146-154 | concrete fallback list of user "1"'s resumes |
| Api.UnknownJobNotFound | src/services/api.ts:28-39 | when the network fails, job "6" is not found and job "3" is the third fixture |
| Api.HttpErrorsPropagate | src/services/api.ts:18-214 | every read throws on an HTTP error response, whatever its arguments |
| Api.MockResumesOneDefaultPerUser | src/services/api.ts:336-363 | no user has two default resumes in the resume fixtures |
| Api.FixtureApplicationsToFixtureJobs | src/services/api.ts:218-334 | every fixture application refers to the id of a fixture job |
| Api.MockJobs | src/services/api.ts:218-286 | the job fixtures are five jobs with ids "1" to "5", in that order |
| Api.MockApplications | src/services/api.ts:288-334 | the application fixtures are five applications with ids "1" to "5", in that order |
| Api.MockResumes | src/services/api.ts:336-363 | the resume fixtures are three resumes with ids "1" to "3", in that order |
| Api.MockEmployerStats | src/services/api.ts:365-374 | the employer statistics fixture has no more active jobs than jobs, and no more reviewed plus interviewed applications than applications (that it is the same for every id is stated by Api.GetEmployerStats) |
| Api.MockSeekerStats | src/services/api.ts:376-385 | the seeker statistics fixture's per-status counts together are at most its total (that it is the same for every id is stated by Api.GetSeekerStats) |
| JobSearch.SearchResults | src/components/seeker/JobSearch.tsx:81-101 | the result is no longer than the input, and with no term and no type it is the input itself |
| JobSearch.SearchIsIntersection | src/components/seeker/JobSearch.tsx:81-101 | the two chained filters are one filter on the conjunction of the term test and the type test, and the result is an order-preserving subsequence of the input |
| JobSearch.SearchMembership | src/components/seeker/JobSearch.tsx:85-98 | a job is listed iff it is in the input, the lower-cased term occurs in its lower-cased title, company, description or location, and its type tag equals the chosen type |
| JobSearch.TypeFilterExact | src/components/seeker/JobSearch.tsx:96-98 | the type test holds iff the filter value parses to exactly the job's type |
| JobSearch.SelectJobType | src/components/seeker/JobSearch.tsx:191 | the select value "all" clears the type filter and any other value becomes the filter |
| JobSearch.SelectAllClearsType | src/components/seeker/JobSearch.tsx:191 | choosing "all" gives the same results as having no type filter; with an empty term it lists every job |
| JobSearch.RemoteFullTimeKeepsBackendEngineer | src/components/seeker/JobSearch.tsx:85-98 | the fixture job whose location is "Remote" is found by the term "Remote" under the "full-time" filter |
| JobSearch.FirstDefault | src/components/seeker/JobSearch.tsx:59-64 | the index of the first resume marked default, and none iff no resume is default |
| JobSearch.DefaultResumeChoice | src/components/seeker/JobSearch.tsx:59-64 | the preselected resume is the first default one, else the first resume, else the current selection stays |
| JobSearch.FixtureDefaultResumeChosen | src/components/seeker/JobSearch.tsx:59-64 | among user "1"'s fixture resumes, resume "1" is preselected |
| JobSearch.CeilDays | src/components/seeker/JobSearch.tsx:157-158 | the day count is the least n with n days no shorter than the difference, and 0 only for no difference |
| JobSearch.FormatDate | src/components/seeker/JobSearch.tsx:154-169 | "Today" iff the times are equal; "Yesterday" for at most one day apart; "n days ago" for two to six; the locale date beyond |
| JobSearch.FormatDateSymmetric | src/components/seeker/JobSearch.tsx:154-169 | the label depends only on the distance between the two times: it ignores which is later and a common shift |
| JobSearch.JobSearchPanel.constructor | src/components/seeker/JobSearch.tsx:32-41 | the panel starts with no jobs, resumes, term, type filter, selection or dialog |
| JobSearch.JobSearchPanel.Load | src/components/seeker/JobSearch.tsx:43-78 | with a user and both reads resolved, jobs, results and resumes are loaded and the default resume is preselected; otherwise nothing changes |
| JobSearch.JobSearchPanel.SetSearchTerm | src/components/seeker/JobSearch.tsx:81-101 | a new term recomputes the results from the jobs with the current type filter |
| JobSearch.JobSearchPanel.SelectType | src/components/seeker/JobSearch.tsx:81-101 | choosing a type sets the filter ("all" clears it) and recomputes the results |
| JobSearch.JobSearchPanel.ApplyForJob | src/components/seeker/JobSearch.tsx:103-124 | the dialog opens with the chosen job iff a user is logged in and has a resume; otherwise nothing changes |
| JobSearch.JobSearchPanel.SubmitApplication | src/components/seeker/JobSearch.tsx:126-152 | an application is submitted iff user, job and resume id are all present; then the dialog closes and the selection is cleared, otherwise nothing changes |
| JobsPage.FilteredJobs | src/pages/Jobs.tsx:51-77 | the result is no longer than the input, and with every filter absent it is the input itself |
| JobsPage.TermAndLocation | src/pages/Jobs.tsx:55-69 | the term stage followed by the location stage is one filter on the conjunction of their tests |
| JobsPage.FilteredIsIntersection | src/pages/Jobs.tsx:51-77 | the three chained filters are one filter on the conjunction of the three tests, and the result is an order-preserving subsequence of the input |
| JobsPage.FilteredMembership | src/pages/Jobs.tsx:51-77 | a job is listed iff it is in the input and every filter that is set admits it |
| JobsPage.TermIgnoresLocation | src/pages/Jobs.tsx:55-62 | whether the term matches a job does not depend on the job's location |
| JobsPage.LocationOnlyTerm | src/components/seeker/JobSearch.tsx:85-92 | for any job whose location holds the term but whose title, company and description do not, the seeker's search keeps it and the listing page's search drops it |
| JobsPage.RemoteOnlyInLocation | src/pages/Jobs.tsx:55-62 | a job that says "Remote" only in its location exists: its location holds "remote" case-insensitively and no searched field does |
| JobsPage.SeekerSearchFindsLocation | src/components/seeker/JobSearch.tsx:85-92 | the seeker's search finds a job whose only mention of "remote" is its location |
| JobsPage.PageSearchIgnoresLocation | src/pages/Jobs.tsx:55-62 | the listing page's search term does not find that same job |
| JobsPage.LocationFilterIgnoresCase | src/pages/Jobs.tsx:65-69 | the location filter gives the same verdict for a value and its lower-cased form |
| JobsPage.Locations | src/pages/Jobs.tsx:80 | every job's location is offered, and every offered location is some job's |
| JobsPage.LocationsDistinctInOrder | src/pages/Jobs.tsx:80 | each location is offered once, in the order of its first occurrence |
| Seqs.Distinct | src/pages/Jobs.tsx:80 | `[...new Set(s)]` holds every value of the list and only values of the list (its order and uniqueness are `Seqs.DistinctNoDuplicates` and `Seqs.DistinctFirstOccurrenceOrder`) |
| Seqs.DistinctNoDuplicates | src/pages/Jobs.tsx:80 | no value appears twice in the distinct values |
| Seqs.DistinctFirstOccurrenceOrder | src/pages/Jobs.tsx:80 | the distinct values are ordered by the position of their first occurrence in the list |
| Text.Lower | src/components/seeker/JobSearch.tsx:86-91 | `toLowerCase` keeps the length, lower-cases each ASCII capital, keeps every other character, and leaves no capital |
| Text.LowerIdempotent | src/pages/Jobs.tsx:65-69 | lower-casing an already lower-cased string changes nothing |
| Text.Contains | src/components/seeker/JobSearch.tsx:88-91 | `includes` finds a prefix and the empty needle, and never a needle longer than the text |
| Text.ContainsOccurrence | src/components/seeker/JobSearch.tsx:88-91 | `includes` holds iff the needle occurs at some position of the text |
| JobsPage.FormatDateMonotone | src/pages/Jobs.tsx:82-97 | this page's `formatDate` is the seeker panel's, and a date farther from now never gets a nearer label ("Today", "Yesterday", "n days ago", a full date) than a closer one |
| Pagination.SliceIndex | src/components/employer/JobsList.tsx:77 | an index of `slice` is clamped to the length, and a negative one counts from the end |
| Pagination.JsSlice | src/components/employer/JobsList.tsx:77 | for non-negative bounds the slice is the clamped sub-range, and it is never longer than the list |
| Pagination.PageItems | src/components/employer/JobsList.tsx:75-77 | page p holds rows (p-1)*10 up to p*10 (clamped), never more than ten |
| Pagination.TotalPages | src/components/employer/JobsList.tsx:80 | the page count is the least t with 10*t rows holding n, zero only for an empty list |
| Pagination.PageInRange | src/components/seeker/ApplicationsList.tsx:39-45 | a page shows rows iff it is at most the page count, starting at row (p-1)*10; every page but the last is full |
| Pagination.PagesFrom | src/components/employer/JobsList.tsx:75-80 | the pages from p to the last, concatenated, are the list from row (p-1)*10 on |
| Pagination.PagesCoverList | src/components/employer/JobsList.tsx:75-80 | pages 1 to the last, concatenated, are the whole list: every row is on exactly one page |
| Pagination.PreviousPage | src/components/employer/JobsList.tsx:220 | Previous goes back one page but never below page 1 |
| Pagination.NextPage | src/components/employer/JobsList.tsx:238 | Next goes forward one page but never past the last |
| Pagination.PageLinks | src/components/employer/JobsList.tsx:225-228 | there is one link per page, and link i goes to page i+1 |
| Pagination.ShowPagination | src/components/employer/JobsList.tsx:215 | the bar is shown iff it is asked for and there are more than ten rows |
| Pagination.ClicksStayInRange | src/components/seeker/ApplicationsList.tsx:115-133 | from a page in range, Previous, Next and every link land on a page in range |
| Pagination.Render | src/components/employer/JobsList.tsx:65-80 | an empty list renders only the empty-state message; otherwise the current page's rows, with the bar iff asked for and more than ten rows |
| Pagination.Recent | src/components/employer/EmployerDashboard.tsx:247 | the overview holds the first five rows, or all of them when there are fewer |
| Pagination.ShowViewAll | src/components/employer/EmployerDashboard.tsx:257 | "View All" appears iff the overview leaves rows out; without it the overview is the whole list |
| JobsList.Capitalize | src/components/employer/JobsList.tsx:166 | the label has the same length, the first letter upper-cased and the rest unchanged |
| JobsList.LowerUndoesCapitalize | src/components/employer/JobsList.tsx:166 | lower-casing a capitalised word that had no capitals gives back the word |
| JobsList.StatusLabel | src/components/employer/JobsList.tsx:166 | the status badge starts with a capital and lower-cases back to the status tag |
| JobsList.StatusLabels | src/components/employer/JobsList.tsx:166 | the labels are "Active" and "Closed", one per status |
| JobsList.ApplicationCount | src/components/employer/JobsList.tsx:171-173 | the count shown is "4", "2" and "1" for jobs "1", "2" and "5", and "0" for every other id |
| JobsList.CountDisagreesWithFixtures | src/components/employer/JobsList.tsx:171-173 | the count shown for job "1" is "4", while the fixtures hold one application for it |
| JobsList.JobsList.View | src/components/employer/JobsList.tsx:65-80 | the list shows the empty-state message iff it has no jobs, and otherwise the current page |
| JobsList.JobsList.constructor | src/components/employer/JobsList.tsx:58-63 | the list starts on page 1 with no job being edited or deleted |
| JobsList.JobsList.PreviousPage | src/components/employer/JobsList.tsx:220 | the page becomes the clamped previous page and nothing else changes |
| JobsList.JobsList.NextPage | src/components/employer/JobsList.tsx:238 | the page becomes the clamped next page, at most the last one, and nothing else changes |
| JobsList.JobsList.GoToPage | src/components/employer/JobsList.tsx:228 | a page link goes to its page, which shows at least one job |
| JobsList.JobsList.EditClick | src/components/employer/JobsList.tsx:195 | the clicked job becomes the one being edited |
| JobsList.JobsList.JobUpdate | src/components/employer/JobsList.tsx:82-85 | the updated job is passed up unchanged and the edit form closes |
| JobsList.JobsList.DeleteClick | src/components/employer/JobsList.tsx:87-90 | the clicked job is chosen for deletion and the confirmation opens |
| JobsList.JobsList.DeleteConfirm | src/components/employer/JobsList.tsx:92-118 | confirming reports exactly the chosen job's id and closes the dialog; with no job chosen it does nothing |
| ApplicationsList.JobTitle | src/components/seeker/ApplicationsList.tsx:82-86 | the title cell of a fixture job's id is that fixture job's title, and an unknown id shows a blank cell |
| ApplicationsList.CompanyName | src/components/seeker/ApplicationsList.tsx:90-92 | the company cell of a fixture job's id is that fixture job's company, and an unknown id shows a blank cell |
| ApplicationsList.ApplicationsList.View | src/components/seeker/ApplicationsList.tsx:31-45 | the list shows the "haven't applied" message iff it is empty, and otherwise the current page |
| ApplicationsList.ApplicationsList.constructor | src/components/seeker/ApplicationsList.tsx:28 | the list starts on page 1 |
| ApplicationsList.ApplicationsList.PreviousPage | src/components/seeker/ApplicationsList.tsx:115 | the page becomes the clamped previous page and nothing else changes |
| ApplicationsList.ApplicationsList.NextPage | src/components/seeker/ApplicationsList.tsx:133 | the page becomes the clamped next page, at most the last one |
| ApplicationsList.ApplicationsList.GoToPage | src/components/seeker/ApplicationsList.tsx:123 | a page link goes to its page, which shows at least one application |
| ApplicationsManager.SetStatusById | src/components/employer/ApplicationsManager.tsx:104-110 | the applications with the id get the new status, the others are unchanged, and length and order stay |
| ApplicationsManager.SetNotesById | src/components/employer/ApplicationsManager.tsx:140-146 | the applications with the id get exactly the entered note, the others are unchanged |
| ApplicationsManager.StatusChangeOnlyStatus | src/components/employer/ApplicationsManager.tsx:104-110 | a status change alters no field but the status, and that only on the matching application |
| ApplicationsManager.NoteRoundTrip | src/components/employer/ApplicationsManager.tsx:140-146 | after saving, the matching application's note is present and reads back as the text, even an empty one |
| ApplicationsManager.UnknownIdChangesNothing | src/components/employer/ApplicationsManager.tsx:104-146 | an id that no application has changes nothing |
| ApplicationsManager.StatusLastWriteWins | src/components/employer/ApplicationsManager.tsx:298-311 | two status changes in a row equal the last one alone: any status can follow any other |
| ApplicationsManager.NoteLastWriteWins | src/components/employer/ApplicationsManager.tsx:140-146 | two saved notes in a row equal the last one alone |
| ApplicationsManager.StatusAndNoteCommute | src/components/employer/ApplicationsManager.tsx:104-146 | a status change and a note edit can be applied in either order |
| ApplicationsManager.FixtureStatusChange | src/components/employer/ApplicationsManager.tsx:104-110 | on job "5"'s fixture applications, offering application "5" changes only that one |
| ApplicationsManager.ApplicantLabel | src/components/employer/ApplicationsManager.tsx:232-234 | the label is "John Doe (muser)" iff the user id is "1", "Jane Smith" iff it is "3", and "Unknown User" otherwise |
| ApplicationsManager.ApplicationsManager.constructor | src/components/employer/ApplicationsManager.tsx:40-51 | the manager starts with no selection, no applications and closed dialogs |
| ApplicationsManager.ApplicationsManager.SelectFirstJob | src/components/employer/ApplicationsManager.tsx:53-57 | the first job is selected when there are jobs and none is selected; otherwise nothing changes |
| ApplicationsManager.ApplicationsManager.SelectJob | src/components/employer/ApplicationsManager.tsx:192-194 | choosing a job selects its id |
| ApplicationsManager.ApplicationsManager.LoadApplications | src/components/employer/ApplicationsManager.tsx:59-80 | with a job selected and the read resolved, the applications are replaced by it; otherwise they stay |
| ApplicationsManager.ApplicationsManager.ChangeStatus | src/components/employer/ApplicationsManager.tsx:82-86 | the status dialog opens on the application with its current status picked |
| ApplicationsManager.ApplicationsManager.AddNote | src/components/employer/ApplicationsManager.tsx:88-92 | the note dialog opens on the application with its notes, or "" when it has none |
| ApplicationsManager.ApplicationsManager.PickStatus | src/components/employer/ApplicationsManager.tsx:298-311 | any of the five statuses can be picked |
| ApplicationsManager.ApplicationsManager.EditNote | src/components/employer/ApplicationsManager.tsx:343-346 | typing sets the note text |
| ApplicationsManager.ApplicationsManager.SubmitStatusChange | src/components/employer/ApplicationsManager.tsx:94-128 | with an application selected the picked status is set on it by id and the dialog closes; with none nothing changes |
| ApplicationsManager.ApplicationsManager.SubmitNote | src/components/employer/ApplicationsManager.tsx:130-164 | with an application selected the note is set on it by id and the dialog closes; with none nothing changes |
| EmployerDashboard.ReplaceJob | src/components/employer/EmployerDashboard.tsx:250 | every job with the updated job's id is replaced by it; the others and the length are unchanged |
| EmployerDashboard.RemoveJob | src/components/employer/EmployerDashboard.tsx:253 | removing never lengthens the list |
| EmployerDashboard.RemoveJobExactly | src/components/employer/EmployerDashboard.tsx:253 | exactly the jobs with the id are removed, as many as there were, and the rest keep their order |
| EmployerDashboard.CreateThenDelete | src/components/employer/EmployerDashboard.tsx:86-253 | deleting a freshly prepended job with a new id restores the list |
| EmployerDashboard.ReplaceJobLaws | src/components/employer/EmployerDashboard.tsx:250 | two updates of the same job equal the last one, and an update to the same values changes nothing |
| EmployerDashboard.ApplicationsToFetch | src/components/employer/EmployerDashboard.tsx:66-69 | applications are fetched only for the first job, and only when there is one |
| EmployerDashboard.Counters | src/components/employer/EmployerDashboard.tsx:135-159 | the four counters are the statistics' totals, or 0 when there are no statistics |
| EmployerDashboard.FixtureDashboard | src/components/employer/EmployerDashboard.tsx:66-69 | on the fixtures employer "2" fetches job "1"'s applications and gets no "View All" button |
| EmployerDashboard.EmployerDashboard.constructor | src/components/employer/EmployerDashboard.tsx:43-48 | the dashboard starts with no statistics, jobs or applications, and the form closed |
| EmployerDashboard.EmployerDashboard.Load | src/components/employer/EmployerDashboard.tsx:50-84 | with a user and both reads resolved, statistics and jobs are loaded and the first job's applications requested; otherwise nothing changes |
| EmployerDashboard.EmployerDashboard.OpenPostJobForm | src/components/employer/EmployerDashboard.tsx:102 | the button opens the job form |
| EmployerDashboard.EmployerDashboard.JobCreated | src/components/employer/EmployerDashboard.tsx:85-92 | the new job is prepended before the earlier jobs, in their order, and the form closes |
| EmployerDashboard.EmployerDashboard.JobUpdated | src/components/employer/EmployerDashboard.tsx:249-251 | the jobs with the updated id are replaced by the updated job |
| EmployerDashboard.EmployerDashboard.JobDeleted | src/components/employer/EmployerDashboard.tsx:252-254 | the jobs with the id are removed and no remaining job has it |
| EmployerDashboard.EmployerDashboard.Overview | src/components/employer/EmployerDashboard.tsx:247 | the overview is a prefix of at most five jobs |
| SeekerDashboard.ChartData | src/components/seeker/SeekerDashboard.tsx:71-78 | the chart is Pending, Reviewed, Interviews and Offers from the statistics, and empty iff there are none |
| SeekerDashboard.Counters | src/components/seeker/SeekerDashboard.tsx:136-160 | the four counters are the statistics' totals, or 0 when there are no statistics |
| SeekerDashboard.SetDefaultOffered | src/components/seeker/SeekerDashboard.tsx:307-309 | "Set as Default" is offered iff making the resume the default would change it, that is, iff it is not the default |
| SeekerDashboard.UploadKeepsOneDefault | src/components/seeker/SeekerDashboard.tsx:61-68 | appending a non-default resume keeps at most one default per user, and the new one is offered "Set as Default" |
| SeekerDashboard.FixtureSetDefaultButtons | src/components/seeker/SeekerDashboard.tsx:307-309 | for user "1"'s fixture resumes, only the non-default one offers "Set as Default" |
| SeekerDashboard.SeekerDashboard.constructor | src/components/seeker/SeekerDashboard.tsx:24-29 | the dashboard starts with no statistics, applications or resumes, and the uploader closed |
| SeekerDashboard.SeekerDashboard.Load | src/components/seeker/SeekerDashboard.tsx:31-59 | with a user and all three reads resolved, they are loaded; otherwise nothing changes |
| SeekerDashboard.SeekerDashboard.OpenUploader | src/components/seeker/SeekerDashboard.tsx:102 | the button opens the resume uploader |
| SeekerDashboard.SeekerDashboard.ResumeUploaded | src/components/seeker/SeekerDashboard.tsx:61-68 | the uploaded resume is appended after the unchanged earlier ones and the uploader closes |
| SeekerDashboard.SeekerDashboard.Overview | src/components/seeker/SeekerDashboard.tsx:227-231 | the overview is a prefix of at most five applications |
| PostJobForm.Prefill | src/components/employer/PostJobForm.tsx:32-40 | a field starts with the edited job's value when it is non-empty, and the default otherwise |
| PostJobForm.InitialForm | src/components/employer/PostJobForm.tsx:32-40 | a new form is blank but for "TechCorp Inc." and full-time; an edit form holds exactly the job's fields, except that an empty company becomes "TechCorp Inc." |
| PostJobForm.SetField | src/components/employer/PostJobForm.tsx:42-48 | an input change sets exactly the named field |
| PostJobForm.Entries | src/components/employer/PostJobForm.tsx:61 | the form's seven entries, in the checking order |
| PostJobForm.FirstMissing | src/components/employer/PostJobForm.tsx:61-70 | the index of the first empty entry, with every earlier one filled; none iff every entry is filled |
| PostJobForm.Humanize | src/components/employer/PostJobForm.tsx:65 | the humanised key has no capital letter |
| PostJobForm.HumanizeShape | src/components/employer/PostJobForm.tsx:65 | humanising adds one space per capital, and leaves a key without capitals unchanged |
| PostJobForm.HumanizeJobType | src/components/employer/PostJobForm.tsx:65 | the key "jobType" is shown as "job type" |
| PostJobForm.FieldNames | src/components/employer/PostJobForm.tsx:65 | the messages for the salary and job type fields |
| PostJobForm.JobTypeNeverMissing | src/components/employer/PostJobForm.tsx:61-70 | the job type can never be the missing field |
| PostJobForm.BlankFormStopsAtTitle | src/components/employer/PostJobForm.tsx:61-70 | a blank new form stops at the title, and once a title is typed at the location |
| PostJobForm.Edited | src/components/employer/PostJobForm.tsx:81-84 | the edited job keeps the original id, date, employer and status, and takes every form field |
| PostJobForm.Created | src/components/employer/PostJobForm.tsx:100-107 | a new job is active, belongs to the employer and takes every form field |
| PostJobForm.UnchangedEditIsIdentity | src/components/employer/PostJobForm.tsx:32-84 | opening a complete job for editing and saving it unchanged passes the checks and gives back the job |
| PostJobForm.PostJobForm.constructor | src/components/employer/PostJobForm.tsx:27-40 | the form starts from the initial values |
| PostJobForm.PostJobForm.InputChange | src/components/employer/PostJobForm.tsx:42-48 | an input change sets exactly the named field |
| PostJobForm.PostJobForm.SelectChange | src/components/employer/PostJobForm.tsx:50-55 | the select sets only the job type |
| PostJobForm.PostJobForm.Submit | src/components/employer/PostJobForm.tsx:57-125 | the first empty field aborts with its message; otherwise the edited or new job is emitted |
| ResumeUploader.FileCheck | src/components/seeker/ResumeUploader.tsx:33-44 | the type is checked before the size; a file passes iff its type is allowed and it is at most 5 MiB |
| ResumeUploader.SizeBoundary | src/components/seeker/ResumeUploader.tsx:40-44 | exactly 5 MiB passes, a byte more is too large, and a PNG is refused whatever its size |
| ResumeUploader.NameStem | src/components/seeker/ResumeUploader.tsx:49-52 | the stem is the longest prefix of the name without '.', and ends where the first '.' is |
| ResumeUploader.NameStems | src/components/seeker/ResumeUploader.tsx:49-52 | concrete stems: "cv.final.pdf" gives "cv", ".pdf" gives "", "resume" stays |
| ResumeUploader.ResumeUploader.constructor | src/components/seeker/ResumeUploader.tsx:20-23 | the uploader starts with no title, file or error |
| ResumeUploader.ResumeUploader.SetTitle | src/components/seeker/ResumeUploader.tsx:117 | typing sets the title only |
| ResumeUploader.ResumeUploader.FileChange | src/components/seeker/ResumeUploader.tsx:25-53 | the error is cleared; a refused file sets its error and keeps the stored file; a valid one is stored and names an empty title |
| ResumeUploader.ResumeUploader.ReplaceFile | src/components/seeker/ResumeUploader.tsx:136-142 | the file is dropped, nothing else changes |
| ResumeUploader.ResumeUploader.Submit | src/components/seeker/ResumeUploader.tsx:55-99 | without a file an error is set and nothing is emitted; with one, a non-default resume of this user with the title and file name |
| RegisterPage.EmailValid | src/pages/Register.tsx:51-55 | the scanner accepts an e-mail iff it matches the pattern: a non-empty part without space or '@', '@', then a domain without space or '@' holding a '.' with something on both sides |
| RegisterPage.EmailExamples | src/pages/Register.tsx:51-55 | "muser@example.com" passes; "muser@example" and "@example.com" are refused |
| RegisterPage.RegisterError | src/pages/Register.tsx:41-60 | any empty field gives "All fields are required"; there is no error iff all are filled, passwords match, the e-mail matches and the password has six characters |
| RegisterPage.FirstFailureWins | src/pages/Register.tsx:41-60 | each message appears iff its check is the first to fail |
| RegisterPage.PasswordLengthBoundary | src/pages/Register.tsx:57-60 | a six-character password passes and a five-character one is too short |
| RegisterPage.RegisterForm.constructor | src/pages/Register.tsx:26-31 | the form starts empty, as a seeker, with no error |
| RegisterPage.RegisterForm.Submit | src/pages/Register.tsx:36-66 | register is called, with the form's values, iff no check fails, else the error is shown; the page goes to /login iff register succeeded |
| Auth.FindSeed | src/contexts/AuthContext.tsx:60-64 | the first seed account matching both username and password, and none iff none matches |
| Auth.SeedLogins | src/contexts/AuthContext.tsx:7-24 | "muser"/"muser" is the seeker and "mvc"/"mvc" the employer; crossing the passwords fails |
| Auth.AuthSession.Restore | src/contexts/AuthContext.tsx:43-49 | on start the user is the stored one, when present |
| Auth.AuthSession.IsAuthenticated | src/contexts/AuthContext.tsx:168 | authenticated iff there is a current user |
| Auth.AuthSession.Login | src/contexts/AuthContext.tsx:52-111 | a seed match logs in without the password; else an ok reply logs in its user; else false, the user unchanged; user and stored slot always agree |
| Auth.AuthSession.Register | src/contexts/AuthContext.tsx:114-151 | true iff the backend replies ok; the current user is never changed |
| Auth.AuthSession.Logout | src/contexts/AuthContext.tsx:153-160 | the user becomes null and the stored slot is cleared |
| Pricing.PlanTable | src/pages/Pricing.tsx:17-66 | the plans are Basic 0, Pro 99 and Enterprise 299, prices rise, names differ, and only Pro is popular |
| Pricing.PlanDestination | src/pages/Pricing.tsx:73-93 | a visitor goes to /register, a seeker to /dashboard, an employer to the sales mail for Enterprise and to /checkout otherwise |
| Pricing.EmployerButtons | src/pages/Pricing.tsx:73-93 | an employer's Basic and Pro buttons go to /checkout, the Enterprise one to the sales mail |
| Pricing.PricingPage.constructor | src/pages/Pricing.tsx:71 | no plan is selected at first |
| Pricing.PricingPage.SelectPlan | src/pages/Pricing.tsx:73-93 | the page goes where the decision table says; only for an employer is the plan selected |
| BackendRows.Public | app.py:118-122 | the login body is the user row without its password hash |
| BackendRows.ColumnOf | app.py:174-179 | the key "jobType" maps to the job_type column, and "job_type", "id", "employerId" and "postedDate" map to none |
| BackendRows.Whitelisted | app.py:173-179 | the updates made are no more than the keys sent |
| BackendRows.WhitelistedCount | app.py:173-179 | one update is made per whitelisted key sent |
| BackendRows.WhitelistedEmptyIff | app.py:173-182 | no update is made iff no key sent is whitelisted |
| BackendRows.WhitelistedFromItems | app.py:173-179 | every update made comes from a sent key and its value |
| BackendRows.UnlistedKeysIgnored | app.py:173-179 | dropping the keys that are not whitelisted changes nothing |
| BackendRows.SetColumn | app.py:184-189 | an update never touches the id, employer or posting date |
| BackendRows.ApplyUpdates | app.py:184-189 | after the `UPDATE`, each settable column holds the value of its last assignment, or its old value when unassigned; id, employer and posting date are kept |
| BackendRows.JobTypeKeyMapped | app.py:174-179 | sending "jobType" sets the job type; sending "job_type" updates nothing |
| BackendRows.Decimal | app.py:322 | `str(n)` is a non-empty string of digits without a leading zero whose decimal value is n |
| BackendRows.MockFileName | app.py:322 | the stored file name is "resume_", the user id's digits, '_', the time stamp and ".pdf", each at its position |
| BackendRows.DecimalInjective | app.py:322 | two user ids with the same decimal string are equal |
| BackendRows.MockFileNameDeterminesParts | app.py:322 | the file name determines the user id and the time stamp it was made from |
| BackendRows.JobIds | app.py:395-396 | the ids collected are exactly the employer's jobs' ids, one per job |
| BackendRows.GetEmployerStats | app.py:378-432 | active jobs are at most all jobs, reviewed plus interviewed at most the applications, all counts zero when the employer has no jobs, and the applications counted are exactly those to the employer's jobs |
| BackendRows.EmployerCountBounds | app.py:384-428 | the inequalities between the employer counts, and no application counted without jobs |
| BackendRows.GetSeekerStats | app.py:434-479 | the total is the user's applications, and the four per-status counts together are at most the total |
| BackendRows.SeekerCountParts | app.py:438-470 | the pending, reviewed, interviewed and offered counts are disjoint parts of the user's applications |
| Backend.UsersOkAppend | app.py:85-96 | inserting a user with a new name and e-mail under the next id keeps the users table consistent |
| Backend.ApplicationsOkAppend | app.py:244-258 | inserting an application for a new (job, user) pair under the next id keeps the table consistent |
| Backend.ResumesOkAppend | app.py:324-338 | inserting a resume under the next id, default only when the user has none, keeps the table consistent |
| Backend.ClearThenSet | app.py:368-371 | clearing then setting the flag changes no field but `is_default`: the chosen resume is set, the user's others cleared, others' kept |
| Backend.ClearThenSetLaws | app.py:358-371 | after set-default the table stays consistent, the chosen resume is the user's only default and is its old row with the flag set, and no other user's rows change |
| Backend.FindUser | app.py:112-114 | the user found has the username; none iff no user has it |
| Backend.Store.Init | app.py:44-63 | the store starts with the seeker "muser" (id 1) and the employer "mvc" (id 2), each stamped with its own clock reading, and no other rows |
| Backend.Store.Register | app.py:73-100 | 400 for a missing field, 409 if the name or e-mail is taken, else 201 with one user inserted under the next id, user type unvalidated |
| Backend.Store.Login | app.py:102-122 | 400 without both fields; 200 iff a user with the name has a matching password, with the body lacking the hash; else 401 |
| Backend.Store.CollectUpdates | app.py:171-180 | the loop over the request body keeps exactly the whitelisted keys, in request order, each with its column (`jobType` goes to `job_type`) |
| Backend.Store.UpdateJob | app.py:162-195 | 404 for an unknown job, 400 if no key is whitelisted, else 200 with the whitelisted updates applied to that job only |
| Backend.Store.ApplyForJob | app.py:230-262 | 400 for a missing id, 404 for an unknown job, 409 for a repeated (job, user) pair, else 201 with one pending application inserted |
| Backend.Store.UpdateApplicationStatus | app.py:264-281 | 400 without a status, 404 for an unknown application, else 200 with any status stored on it |
| Backend.Store.UploadResume | app.py:308-342 | 404 for an unknown user, 400 without a title, else 201 with one resume inserted, default iff the user had none; afterwards the user has exactly one default |
| Backend.Store.SetDefaultResume | app.py:355-375 | 404 unless the resume belongs to the user; else 200, that resume is the user's one default, other users' rows are untouched, and the body is the stored row re-read with its default flag set |

## Left out

- I/O is not modelled: `fetch` and HTTP transport, `response.json()`, JSON encoding, `localStorage`
  (modelled as the `stored` field) and the 500 ms login delay.
  - A remote result is an input value: `Remote`, `Outcome` and `Reply`.
  - A request body is a list of string fields.
- Clocks are parameters. `Date.now()` ids, `new Date().toISOString()`, `datetime.now()` and the file-name
  time stamp are inputs (`newId`, `now`, `stamp`, times in milliseconds).
- Locale and invalid dates are not modelled. The `toLocaleDateString()` label is the abstract value `LocaleDate`,
  and a date that fails to parse (NaN) is not modelled.
- Unicode is not modelled. `toLowerCase` is ASCII lower-casing, `toUpperCase` (in `JobsList.Capitalize`) is ASCII
  upper-casing, and `\s` in the e-mail pattern is ASCII whitespace.
- JSX rendering, badges, toasts, dialogs and charts are not modelled, nor the hard-coded chart arrays or
  floating-point percentages and file sizes. The toast texts, including register's
  `data.message || ...`, are not modelled.
- The HTML `required` attributes are not modelled, and neither are the API calls left commented out in the components, which never run.
- React effect scheduling and the `Promise.all` parallel loads are not modelled: each load is one
  method over the results of its reads.
- `isLoading` and `isApplying` flags are modelled only in their final states, not while a call is in flight.
- `src/pages/Index.tsx`, `src/components/common/Navbar.tsx` and `src/pages/Dashboard.tsx` are not part of this
  model: presentation and navigation only.
- Some app.py routes are not part of this model, and their checks with them: `create_job` (400 when a
  required key is absent, app.py:146-147), `delete_job` (404 for an unknown job, app.py:201-202),
  `update_application_notes` (404 for an unknown application, app.py:290-291), `delete_resume` (404 for an
  unknown resume, app.py:348-349) and the GET list routes with their `ORDER BY`.
- Flask routing and SQLite are not modelled. Tables are sequences, and `lastrowid` is a per-table counter starting at 1.
- Werkzeug hashing is a parameter. `Store.Register` takes the hash, and `Store.Login` takes `check_password_hash` as a function.
- JSON values are limited: request fields are strings or integers, with Python falsiness (`None`, `""`, `0`).
  Other JSON types, such as a number where a string is expected, are not modelled, nor a string id where the
  model has an integer: the front end's apply call sends `userId` and `resumeId` as strings, and Python treats
  `"0"` as truthy where the model's integer 0 is falsy (that call is commented out in the interface).
- Backend.Store.ApplyForJob: foreign keys are not checked, because the source checks only that the job exists. The user and
  resume ids are stored as given.
- JobsList.JobsList and ApplicationsList.ApplicationsList: the rows are the props at construction and stay
  fixed. In the source the parent can shrink the list (a delete) while `currentPage` is kept, which can
  leave the current page past the last one and render an empty table; that case is not modelled.
