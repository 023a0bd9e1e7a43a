# JobLynk, modelled in Dafny

JobLynk is a job board. Recruiters post jobs, job seekers apply to them, and both keep a profile. The backend (`joblynk-be`) is an Express server over PostgreSQL through Sequelize. The frontend (`joblynk-fend`) is a React application. This project models the deterministic core of both and proves what that code promises.

**Backend**
- `enums`, `schema`, `store`: the three enumerations, the five tables (users, seekers, recruiters, jobs, applications) with their column rules and defaults, and a `Database` object whose tables the services replace. Its invariant is the primary keys, UNIQUE columns and foreign keys, and every write keeps it.
- `seqs`: the query building blocks: selection, ordering by a key in descending order, and the LIMIT/OFFSET window with `totalPages = ceil(total / pageSize)`.
- `user_service`, `seeker_service`, `recruiter_service`, `jobs_service`, `application_service`: the service operations as methods that change the tables, and the listings and lookups as functions. This covers the one-application-per-seeker-and-job pre-check, the enum-checked status updates, the active-only conjunctive job search, the bulk rejection of a job's applications, seeker creation where the first write wins, recruiter creation that answers a conflict, and the role-keyed profile lookup.
- `errors`, `requests`, `role_middleware` and the four controller modules: the ordered guard chains (401, 400, 404, 403, then the action), the `Number(q) || d` and `parseInt(q, 10) || d` defaults, and the mapping from a failure to a status code. Two quirks of the jobs controller are kept: the `status` query lands in the service's `location` slot, and the 404 branch of `getJobById` can never be reached.

**Frontend**
- `onboarding_steps`, `onboarding_store`: the step table, the role paths filtered from it, and the onboarding store. The store is a class whose index is always clamped onto the current role's path.
- `jobs_page`: the page state of the public jobs route and the page-button row, built by the same loop as `getPageNumbers`.
- `job_formatters`, `dashboard_jobs`: the labels a job card, the detailed job view and the recruiter's job table print, and the apply button's decision.
- `form_rules`, `create_job_form`, `user_profile_modal`, `personal_step`, `recruiter_profile_modal`, `company_step`: the react-hook-form rules of each form. Each regular expression is written as a recognizer.
- `strings`: the ECMAScript string operations this code relies on, with their JavaScript meaning: `trim`, `split`, `replace` with a one-character pattern, `parseInt` and `String(i)`.

Clocks, fresh ids, locale number formatting and the `isUrl` validator are parameters of the operations that use them.

## Model

| member | source | states |
|---|---|---|
| Enums.JobTypeValue | joblynk-be/src/constants/enums.ts:1-6 | every job type's value is one of the four listed strings |
| Enums.JobStatusValue | joblynk-be/src/constants/enums.ts:10-15 | every job status's value is one of the four listed strings |
| Enums.ApplicationStatusValue | joblynk-be/src/constants/enums.ts:21-28 | every application status's value is one of the six listed strings |
| Enums.ParseJobType | joblynk-be/src/constants/enums.ts:1-6 | a string names a job type exactly when it is one of the listed values, and then names the member with that value |
| Enums.ParseJobStatus | joblynk-be/src/constants/enums.ts:10-15 | a string names a job status exactly when it is one of the listed values, and then names the member with that value |
| Enums.ParseApplicationStatus | joblynk-be/src/constants/enums.ts:21-30 | a string names an application status exactly when it is one of the listed values, and then names the member with that value |
| Enums.EnumRoundTrips | joblynk-be/src/constants/enums.ts:1-28 | parsing the value of any member of the three enumerations gives that member back |
| Enums.EnumValuesDistinct | joblynk-be/src/constants/enums.ts:1-28 | no value is listed twice in any of the three enumerations |
| Errors.RethrowMessage | joblynk-be/src/services/user.service.ts:45-52 | an `ApiError` is rethrown unchanged; any other error becomes a 500 whose message is the prefix followed by the error's message |
| Errors.ErrorResponse | joblynk-be/src/controllers/application.controller.ts:47-57 | an `ApiError` answers with its own status and message; any other error with 500 and its message, or the reason phrase when the message is empty |
| Schema.DbFailure | joblynk-be/src/services/user.service.ts:63 | a refused write surfaces as a non-`ApiError` error, and it is a unique-constraint error exactly when the refusal is a duplicate key |
| Schema.SetColumn | joblynk-be/src/models/user/user.model.ts:35-47 | under an update a NOT NULL column keeps its value when not given, takes the given value, and refuses null |
| Schema.SetNullable | joblynk-be/src/models/user/user.model.ts:48-55 | under an update a nullable column keeps its value when not given and otherwise takes the given value or null |
| Schema.UserError | joblynk-be/src/models/user/user.model.ts:30-55 | a user row is refused exactly when a column exceeds its VARCHAR length, and only for a length |
| Schema.NewUser | joblynk-be/src/models/user/user.model.ts:30-34 | the created row takes every given attribute and the generated id when none is given |
| Schema.SeekerError | joblynk-be/src/models/user/seeker.model.ts:18-44 | a seeker row is refused exactly when a column exceeds its VARCHAR length |
| Schema.NewSeeker | joblynk-be/src/models/user/seeker.model.ts:18-22 | the created seeker row takes every given attribute and the generated id when none is given |
| Schema.RecruiterError | joblynk-be/src/models/user/recruiter.model.ts:19-46 | a recruiter row is refused exactly when a column exceeds its length or a non-null company URL fails `isUrl` |
| Schema.NewRecruiter | joblynk-be/src/models/user/recruiter.model.ts:19-23 | the created recruiter row takes every given attribute and the generated id when none is given |
| Schema.NewJob | joblynk-be/src/models/jobs/jobs.model.ts:33-92 | a job is stored exactly when some row described by the attributes (defaults: generated id, `draft`, no easy apply) fits every column; the stored row is that row |
| Schema.ApplicationError | joblynk-be/src/models/jobs/application.model.ts:22-55 | an application row is refused exactly when an id exceeds 36 characters |
| Schema.NewApplication | joblynk-be/src/models/jobs/application.model.ts:22-55 | the created application takes its job and seeker, the current time as date and `Applied` as status unless given |
| RoleMiddleware.RoleOf | joblynk-be/src/middleware/role.middleware.ts:15-23 | the lookup finds a role exactly for a known user, and it is that user's role |
| RoleMiddleware.CheckRole | joblynk-be/src/middleware/role.middleware.ts:4-37 | 401 without a user id, 500 when the lookup fails, 404 for an unknown user, 403 for a missing or different role; the request passes exactly when the user's role is the required one |
| UserService.GetUser | joblynk-be/src/services/user.service.ts:16-54 | NOT_FOUND exactly for an unknown id; otherwise that user, with their seeker profile only for role `seeker` and recruiter profile only for role `recruiter`, never both |
| UserService.CreateUser | joblynk-be/src/services/user.service.ts:56-74 | the user is appended exactly when the insert is accepted; a taken id or email gives CONFLICT, another refusal a 500 with its message, and the table is unchanged on error |
| UserService.ApplyUserPatch | joblynk-be/src/services/user.service.ts:86 | the update changes only the given attributes and refuses null for the names and the email |
| UserService.UpdateAnyUserAttribute | joblynk-be/src/services/user.service.ts:76-103 | NOT_FOUND for an unknown id; on success exactly that user is replaced by the patched row; an email taken by another user gives CONFLICT; nothing changes on error |
| Errors.RethrowString | joblynk-be/src/services/seeker.service.ts:47-56 | an `ApiError` is rethrown unchanged; any other error becomes a 500 whose message is the prefix followed by the error's name and message |
| Store.Database.constructor | joblynk-be/src/models/index.ts:1-56 | an empty database satisfies every key, uniqueness and reference constraint |
| Store.InsertUser | joblynk-be/src/models/user/user.model.ts:30-55 | an insert is accepted exactly when the row fits its columns and neither its id nor its email is taken; it appends the row and keeps the table's constraints |
| Store.UpdateUser | joblynk-be/src/models/user/user.model.ts:35-55 | an update is accepted exactly when the row fits and no other user has its email; it replaces that one row and keeps the constraints |
| Store.InsertSeeker | joblynk-be/src/models/user/seeker.model.ts:18-44 | an insert is accepted exactly when the row fits, its id and user are not taken and the user exists; a second profile of a user is a duplicate |
| Store.UpdateSeeker | joblynk-be/src/models/user/seeker.model.ts:23-44 | an update is accepted exactly when the row fits, no other profile has its user and the user exists; only that row changes |
| Store.InsertRecruiter | joblynk-be/src/models/user/recruiter.model.ts:19-46 | an insert is accepted exactly when the row passes validation, its id and user are not taken and the user exists; a second profile of a user is a duplicate |
| Store.UpdateRecruiter | joblynk-be/src/models/user/recruiter.model.ts:24-46 | an update is accepted exactly when the row passes validation, no other profile has its user and the user exists; only that row changes |
| Store.InsertJob | joblynk-be/src/models/jobs/jobs.model.ts:33-37 | a built job row is refused only for a taken id, and otherwise appended |
| Store.InsertApplication | joblynk-be/src/models/jobs/application.model.ts:22-41 | an insert is accepted exactly when the row fits, its id is new and both the job and the seeker exist |
| Store.UserReferencesKept | joblynk-be/src/models/user/seeker.model.ts:23-33 | a write that removes no user id keeps every profile's user reference valid |
| Store.ApplicationReferencesKept | joblynk-be/src/models/jobs/application.model.ts:27-45 | a write that removes no job or seeker id keeps every application's references valid |
| Store.UserIndex | joblynk-be/src/services/user.service.ts:18 | `findByPk` finds an index exactly for a known id, and the row there has that id |
| Store.SeekerOfUser | joblynk-be/src/services/user.service.ts:29-31 | the lookup finds a profile of the user exactly when one exists |
| Store.RecruiterOfUser | joblynk-be/src/services/user.service.ts:36-38 | the lookup finds a profile of the user exactly when one exists |
| SeekerService.SeekerIndexOfUser | joblynk-be/src/services/seeker.service.ts:38 | the index of the user's profile is found exactly when the user has one |
| SeekerService.CreateSeeker | joblynk-be/src/services/seeker.service.ts:7-31 | an accepted insert appends the new profile; a unique violation for a user who has a profile returns that profile and writes nothing; any other refusal is a 500 embedding the error's text |
| SeekerService.ApplySeekerPatch | joblynk-be/src/services/seeker.service.ts:45 | the update changes only the given attributes and refuses a null user id |
| SeekerService.UpdateSeeker | joblynk-be/src/services/seeker.service.ts:33-57 | NOT_FOUND when the user has no profile; otherwise only that profile changes as the patch says, or the refusal becomes a 500 embedding the error's text |
| SeekerService.CreateSeekerTwice | joblynk-be/src/services/seeker.service.ts:14-20 | after one profile is created, a second insert for the same user is refused and the lookup finds the first profile |
| RecruiterService.RecruiterIndexOfUser | joblynk-be/src/services/recruiter.service.ts:32 | the index of the user's profile is found exactly when the user has one |
| RecruiterService.CreateRecruiter | joblynk-be/src/services/recruiter.service.ts:7-25 | an accepted insert appends the profile; a duplicate (a user with a profile) is CONFLICT; any other refusal is a 500 embedding the error's text; nothing is written on error |
| RecruiterService.ApplyRecruiterPatch | joblynk-be/src/services/recruiter.service.ts:39 | the update changes only the given attributes and refuses a null user id |
| RecruiterService.UrlCheck | joblynk-be/src/models/user/recruiter.model.ts:39-45 | the URL validator runs on an update only when the patch sets the company URL |
| RecruiterService.UpdateRecruiter | joblynk-be/src/services/recruiter.service.ts:27-50 | NOT_FOUND when the user has no profile; otherwise only that profile changes as the patch says, or the refusal becomes a 500 embedding the error's text |
| RecruiterService.GetRecruiter | joblynk-be/src/services/recruiter.service.ts:52-71 | the user's profile, or NOT_FOUND exactly when the user has none |
| RecruiterService.GetRecruiterUnique | joblynk-be/src/models/user/recruiter.model.ts:24-34 | with one profile per user, the profile returned is the only one of that user |
| Store.Paginate | joblynk-be/src/services/jobs.service.ts:68-76 | LIMIT/OFFSET is refused with a database error exactly when either is negative, and otherwise gives the window of the ordered rows |
| Seqs.FindIndex | joblynk-be/src/services/seeker.service.ts:38 | `findOne` finds the first row that matches, and finds none only when no row matches |
| Seqs.Filter | joblynk-be/src/services/jobs.service.ts:49-66 | a WHERE clause keeps every row that satisfies it exactly as often as the table holds it, and no other row |
| Seqs.Count | joblynk-be/src/services/jobs.service.ts:68 | the number of rows satisfying a condition; zero exactly when no row does |
| Seqs.FilterCount | joblynk-be/src/services/jobs.service.ts:68 | the rows a WHERE clause selects are as many as `COUNT(*)` counts |
| Seqs.SortDesc | joblynk-be/src/services/jobs.service.ts:72 | `ORDER BY createdAt DESC` gives a permutation of the rows, newest first |
| Seqs.Window | joblynk-be/src/services/jobs.service.ts:68-71 | `OFFSET`/`LIMIT` gives at most `limit` rows, those from position `offset` on |
| Seqs.WindowSorted | joblynk-be/src/services/jobs.service.ts:68-72 | a page of an ordered result is itself ordered |
| Seqs.FirstPagesArePrefix | joblynk-be/src/services/jobs.service.ts:48-71 | the first `n` pages one after the other are the first `n * pageSize` rows |
| Seqs.PagesCoverAll | joblynk-be/src/services/jobs.service.ts:48-79 | pages 1 to `totalPages` together are exactly the ordered rows, and every later page is empty |
| Seqs.CeilDiv | joblynk-be/src/services/jobs.service.ts:79 | `Math.ceil(count / pageSize)`: the least number of pages that holds every row |
| JobsService.CreateJob | joblynk-be/src/services/jobs.service.ts:8-11 | the job is appended exactly when the attributes build a valid row with a new id, and the stored row is the one they describe; nothing changes on error |
| JobsService.JobIndex | joblynk-be/src/services/jobs.service.ts:17 | `findByPk` finds an index exactly for a known job id |
| JobsService.UpdateJobStatus | joblynk-be/src/services/jobs.service.ts:13-34 | "Job not found" for an unknown id, then "Invalid job status" for a value outside the enumeration; otherwise exactly that job's status becomes the given value |
| JobsService.GetJobById | joblynk-be/src/services/jobs.service.ts:89-97 | the job with that id, or "Job not found" exactly when there is none |
| JobsService.BuildWhere | joblynk-be/src/services/jobs.service.ts:49-66 | each filter is present exactly when its argument is a non-empty string; a job type outside the enumeration makes the query fail |
| JobsService.MatchingJobs | joblynk-be/src/services/jobs.service.ts:49-68 | every job that is active and passes every present filter, as often as the table holds it, and no other job |
| JobsService.MatchingJobsCount | joblynk-be/src/services/jobs.service.ts:68-83 | the `count` of the listing is the number of jobs matching the WHERE clause |
| JobsService.MatchingJobsInOrder | joblynk-be/src/services/jobs.service.ts:68-72 | a reordering of the matching jobs (same rows, same multiplicities), newest first |
| JobsService.JobWindow | joblynk-be/src/services/jobs.service.ts:68-72 | every job on a page is a matching job |
| JobsService.JobPage | joblynk-be/src/services/jobs.service.ts:68-86 | the page holds the window at `(page - 1) * pageSize` of the matching jobs newest first, at most `pageSize` of them, without descriptions; `total` is the number of matching jobs and `totalPages` is `ceil(total / pageSize)` |
| JobsService.GetPaginatedJobs | joblynk-be/src/services/jobs.service.ts:36-87 | fails exactly for an invalid job type, a negative offset or a negative page size; otherwise returns that page |
| JobsService.ListingOnlyActive | joblynk-be/src/services/jobs.service.ts:66 | whatever the filters, every listed job is active |
| Requests.Truthy | joblynk-be/src/services/jobs.service.ts:51 | `if (s)` passes exactly a present, non-empty string |
| Requests.ParseIntOr | joblynk-be/src/controllers/jobs.controller.ts:54-55 | `parseInt(q, 10) \|\| d` is never 0: the parsed number when it is a non-zero integer, the default otherwise |
| JobsController.CreateJobHandler | joblynk-be/src/controllers/jobs.controller.ts:7-16 | CREATED exactly when the row built from the body fits every column and its id is new, and then the data is that row and it is appended; otherwise 500 "Failed to create job" with no row added |
| JobsController.StatusCheck | joblynk-be/src/controllers/jobs.controller.ts:26-34 | the request passes exactly with a status in the enumeration; a missing or empty status is "Status is required", any other value "Invalid status value" |
| JobsController.UpdateJobStatusHandler | joblynk-be/src/controllers/jobs.controller.ts:18-47 | a failed check answers 400 and changes nothing; an unknown job is 500 "Job not found"; OK exactly when both pass, and then only that job's status changes |
| JobsController.GetPaginatedJobsHandler | joblynk-be/src/controllers/jobs.controller.ts:49-76 | OK exactly when the parsed page and page size give a valid window, and then the data is the service's page for the search, with the `status` parameter as the location filter and no job type; every row is active and its location contains that parameter |
| JobsController.LocationAndTypeIgnored | joblynk-be/src/controllers/jobs.controller.ts:54-60 | the listing does not depend on the `location` and `jobType` parameters |
| JobsController.GetJobByIdHandler | joblynk-be/src/controllers/jobs.controller.ts:78-98 | the job with that id, or 500 "Failed to get job by ID"; the 404 answer never happens |
| ApplicationService.CreateApplication | joblynk-be/src/services/application.service.ts:9-30 | CONFLICT "Application already exists" when the seeker already applied to the job; otherwise the new row is appended exactly when the database accepts it; the no-duplicate-application invariant is kept |
| ApplicationService.ApplicationIndex | joblynk-be/src/services/application.service.ts:36 | `findByPk` finds the index of the application with that id, or none when there is none |
| ApplicationService.UpdateApplicationStatus | joblynk-be/src/services/application.service.ts:32-54 | "Application not found" for an unknown id, then "Invalid application status" for a value outside the enumeration; otherwise exactly that row's status becomes the given value |
| ApplicationService.JobById | joblynk-be/src/services/application.service.ts:78-91 | the included job is the one whose id the application names, absent exactly when there is none |
| ApplicationService.SeekerApplications | joblynk-be/src/services/application.service.ts:67-71 | every application of the seeker, as often as the table holds it, and no other; an empty seeker id adds no condition |
| ApplicationService.SeekerApplicationsCount | joblynk-be/src/services/application.service.ts:73-99 | the `count` of the seeker listing is the number of matching applications |
| ApplicationService.SeekerApplicationsInOrder | joblynk-be/src/services/application.service.ts:73-77 | a reordering of the seeker's applications (same rows, same multiplicities), latest application date first |
| ApplicationService.SeekerPage | joblynk-be/src/services/application.service.ts:73-102 | the window at `(page - 1) * pageSize` of the seeker's applications latest first, at most `pageSize` of them, each with its job when the job exists; `total` is the number of matches and `totalPages` is `ceil(total / pageSize)` |
| ApplicationService.GetPaginatedApplications | joblynk-be/src/services/application.service.ts:56-103 | fails exactly for a negative offset or page size; otherwise returns that page |
| ApplicationService.RecruiterApplications | joblynk-be/src/services/application.service.ts:120-140 | every application to one of the recruiter's existing jobs that has the requested status, if any, as often as the table holds it, and no other |
| ApplicationService.RecruiterApplicationsCount | joblynk-be/src/services/application.service.ts:128-161 | the `count` of the recruiter listing is the number of matching applications |
| ApplicationService.RecruiterApplicationsInOrder | joblynk-be/src/services/application.service.ts:128-132 | a reordering of those applications (same rows, same multiplicities), latest application date first |
| ApplicationService.StatusFilter | joblynk-be/src/services/application.service.ts:124-126 | an absent or empty status adds no condition; any other value outside the enumeration makes the query fail |
| ApplicationService.RecruiterPage | joblynk-be/src/services/application.service.ts:128-164 | the window at `(page - 1) * pageSize` of those applications latest first, at most `pageSize` of them, each with its job; `total` is the number of matches and `totalPages` is `ceil(total / pageSize)` |
| ApplicationService.GetPaginatedApplicationsByRecruiter | joblynk-be/src/services/application.service.ts:105-165 | fails exactly for an invalid status, a negative offset or page size; otherwise returns that page |
| ApplicationService.RecruiterWindow | joblynk-be/src/services/application.service.ts:128-139 | every application on a page belongs to one of the recruiter's jobs and has the requested status |
| ApplicationService.GetApplicationById | joblynk-be/src/services/application.service.ts:167-192 | null exactly when there is no such application or its job is missing; otherwise the application with its job and the job's recruiter |
| ApplicationService.RejectAll | joblynk-be/src/services/application.service.ts:194-203 | every application of the job becomes `Rejected`, and nothing else in the table changes |
| ApplicationService.RejectAllIdempotent | joblynk-be/src/services/application.service.ts:194-203 | rejecting twice is the same as rejecting once |
| ApplicationService.RejectAllKeepsInvariants | joblynk-be/src/services/application.service.ts:194-203 | rejection keeps the table's keys and references valid and creates no duplicate application |
| ApplicationService.RejectApplicationsByJobId | joblynk-be/src/services/application.service.ts:194-203 | the table becomes the one with the job's applications rejected, and stays valid |
| Requests.NumberOr | joblynk-be/src/controllers/application.controller.ts:63-64 | `Number(q) \|\| d` is never 0: the number when it is a non-zero integer, the default for NaN and 0 |
| Requests.BodyField | joblynk-be/src/controllers/seeker.controller.ts:9-18 | a body key becomes an update attribute: left out when absent, null when null, the string otherwise |
| Requests.BodyText | joblynk-be/src/controllers/seeker.controller.ts:10 | a body key read as a string is present exactly when the key holds a string |
| ApplicationController.CallerSeekerId | joblynk-be/src/controllers/application.controller.ts:24-32 | NOT_FOUND for an unknown user, else BAD_REQUEST unless a seeker with that role has a profile with a non-empty id, which is the result |
| ApplicationController.CallerRecruiterId | joblynk-be/src/controllers/application.controller.ts:116-124 | NOT_FOUND for an unknown user, else BAD_REQUEST unless a recruiter with that role has a profile with a non-empty id, which is the result |
| ApplicationController.CreateApplicationGuard | joblynk-be/src/controllers/application.controller.ts:14-37 | 401 without a user id, then 400 without a job id, then the seeker check; the application takes the body's job id and the caller's own seeker id |
| ApplicationController.CreateApplicationHandler | joblynk-be/src/controllers/application.controller.ts:9-58 | a failed check or a repeated application answers with its error and adds nothing; CREATED exactly when the checks pass, the caller has not applied to the job and the database accepts the new row, which is then appended for the caller's own seeker profile |
| ApplicationController.GetApplicationsHandler | joblynk-be/src/controllers/application.controller.ts:60-101 | 401 without a user id, the seeker check's error, OK exactly when the page is valid, and then the data is the service's page of the caller's own applications |
| ApplicationController.GetRecruiterApplicationsHandler | joblynk-be/src/controllers/application.controller.ts:103-148 | 401 without a user id, the recruiter check's error, OK exactly when the page is valid, and then the data is the service's page of applications to the caller's own jobs, with no status filter |
| ApplicationController.UpdateStatusGuard | joblynk-be/src/controllers/application.controller.ts:155-186 | 401, then the recruiter check, then 404 for an unknown application or a missing job, then 403 when the job is another recruiter's; otherwise the application passes |
| ApplicationController.UpdateApplicationStatusHandler | joblynk-be/src/controllers/application.controller.ts:150-209 | a failed check answers with its error and changes nothing; an invalid status is a 500 with the service's message; OK exactly when the checks pass and the status is in the enumeration, and then the stored application is the old one with only its status set to the requested value |
| ApplicationController.OnlyOwnApplications | joblynk-be/src/controllers/application.controller.ts:171-186 | whenever an update passes the checks, the application's job belongs to the caller's own recruiter profile |
| ApplicationController.SeekerRouteGuard | joblynk-be/src/routes/application.routes.ts:8-10 | behind `checkRole("seeker")` the caller exists and has no recruiter profile, so only a missing seeker profile can stop the seeker handlers |
| ApplicationController.RecruiterRouteGuard | joblynk-be/src/routes/application.routes.ts:12-22 | behind `checkRole("recruiter")` the caller exists and has no seeker profile, so only a missing recruiter profile can stop the recruiter handlers |
| SeekerController.SeekerPatchOf | joblynk-be/src/controllers/seeker.controller.ts:9-18 | the whole body, its userId included, is the update, one attribute per key |
| SeekerController.SeekerUpdateGuard | joblynk-be/src/controllers/seeker.controller.ts:10-16 | 400 "User ID is required." without a body userId, then 400 "No updates provided." for a body of at most one key; otherwise the body's userId |
| SeekerController.OnlyUserIdIsNoUpdate | joblynk-be/src/controllers/seeker.controller.ts:14-16 | a body holding only a userId never reaches the service |
| SeekerController.UpdateSeekerHandler | joblynk-be/src/controllers/seeker.controller.ts:7-34 | a failed check or a missing profile answers with its error and changes nothing; for an existing profile, OK exactly when the body's patch applies and the write is accepted, with the patched row as the data and stored in place of the old one; otherwise 500 with the database's reason |
| RecruiterController.RecruiterPatchOf | joblynk-be/src/controllers/recruiter.controller.ts:13-26 | the body is the update, one attribute per key |
| RecruiterController.RecruiterUpdateGuard | joblynk-be/src/controllers/recruiter.controller.ts:16-21 | 400 "User ID is required." without an authenticated id, then 400 "No updates provided." for an empty body; otherwise the caller's id |
| RecruiterController.UpdateRecruiterHandler | joblynk-be/src/controllers/recruiter.controller.ts:8-42 | a failed check or a missing profile answers with its error and changes nothing; for the caller's existing profile, OK exactly when the body's patch applies and the write (with the URL check) is accepted, with the patched row as the data and stored in place of the old one; otherwise 500 with the database's reason |
| OnboardingSteps.KeepMembers | joblynk-fend/src/stores/onboardingStore.ts:5-10 | the role filter keeps exactly the table's steps that list the role, never more steps than the table has |
| OnboardingSteps.StepsFor | joblynk-fend/src/stores/onboardingStore.ts:5-10 | a role's path holds only table steps that list the role, and every table step that lists it |
| OnboardingSteps.PathFor | joblynk-fend/src/stores/onboardingStore.ts:33 | the role `seeker` selects the seeker path and every other role, the empty one included, the recruiter path |
| OnboardingSteps.KeepCons | joblynk-fend/src/stores/onboardingStore.ts:5-10 | filtering a table is filtering its first step and then the rest |
| OnboardingSteps.KeepSix | joblynk-fend/src/stores/onboardingStore.ts:5-10 | filtering a six-step table is filtering each step in turn |
| OnboardingSteps.SeekerPath | joblynk-fend/src/constants/onboardingSteps.ts:3-52 | the seeker path is personal, role, employment, resume, exit |
| OnboardingSteps.RecruiterPath | joblynk-fend/src/constants/onboardingSteps.ts:3-52 | the recruiter path is personal, role, company, exit |
| OnboardingSteps.StepTable | joblynk-fend/src/constants/onboardingSteps.ts:3-52 | six steps with distinct routes; Previous is hidden on exactly the first two and Next on exactly the last |
| OnboardingStore.StepAt | joblynk-fend/src/stores/onboardingStore.ts:39-40 | `path[i] \|\| null` is a step exactly when `i` lies on the path, and then the step at `i` |
| OnboardingStore.Clamp | joblynk-fend/src/stores/onboardingStore.ts:56 | the clamped index lies on the path, equals the index when that is on it, and is the first or last index past either end |
| OnboardingStore.PathLength | joblynk-fend/src/stores/onboardingStore.ts:33-34 | every role's path has at least four steps |
| OnboardingStore.PathEnds | joblynk-fend/src/stores/onboardingStore.ts:33-40 | every path starts with the personal and role steps and ends with the exit step |
| OnboardingStore.HideNextOnlyLast | joblynk-fend/src/constants/onboardingSteps.ts:3-52 | on every path Next is hidden exactly at the last step |
| OnboardingStore.Store.constructor | joblynk-fend/src/stores/onboardingStore.ts:23-29 | the empty role at index 0 of a six-step count, with the first step current and the second next; this agrees with the recruiter path the empty role selects |
| OnboardingStore.Store.SetRole | joblynk-fend/src/stores/onboardingStore.ts:31-50 | the new role's path and count, the index kept when that path has a step there and 0 otherwise, and the steps around the index |
| OnboardingStore.Store.SetCurrentStepIndex | joblynk-fend/src/stores/onboardingStore.ts:52-67 | the index clamped into the current role's path with the steps around it; role and step count unchanged |
| OnboardingStore.NextHiddenAtEnd | joblynk-fend/src/stores/onboardingStore.ts:39-40 | on a consistent store there is no next step exactly when the current step hides Next, and no previous step exactly at index 0 |
| OnboardingStore.WalkStaysOnPath | joblynk-fend/src/routes/onboarding/route.tsx:49-55 | however Next and Previous are pressed, the index stays on the path |
| OnboardingStore.Forwards | joblynk-fend/src/routes/onboarding/route.tsx:49-51 | `k` presses of Next |
| OnboardingStore.ForwardsStopAtEnd | joblynk-fend/src/routes/onboarding/route.tsx:49-51 | `k` presses of Next move `k` steps on, or stop at the last step |
| JobsPage.Range | joblynk-fend/src/routes/jobs.tsx:136-138 | the buttons from `a` to `b` number `b - a + 1`, none when `a > b` |
| JobsPage.RangeAt | joblynk-fend/src/routes/jobs.tsx:136-138 | the `i`-th of those buttons is page `a + i` |
| JobsPage.RangeSnoc | joblynk-fend/src/routes/jobs.tsx:136-138 | pushing page `b + 1` after the buttons up to `b` gives the buttons up to `b + 1` |
| JobsPage.IncreasingAppend | joblynk-fend/src/routes/jobs.tsx:127-143 | two rising rows, the first below the second, join into a rising row |
| JobsPage.WithinAppend | joblynk-fend/src/routes/jobs.tsx:127-143 | two rows within the same page bounds join into a row within them |
| JobsPage.RangeIncreasing | joblynk-fend/src/routes/jobs.tsx:136-138 | the central window rises strictly and stays between its first and last page |
| JobsPage.FewPagesAllShown | joblynk-fend/src/routes/jobs.tsx:123-126 | with at most five pages the row is exactly pages 1, 2, ... up to the last |
| JobsPage.PageNumbersIncreasing | joblynk-fend/src/routes/jobs.tsx:116-147 | page numbers rise strictly from left to right and lie between 1 and the last page; with more than `maxVisiblePages` pages the central window holds at most five of them; the row has at most nine buttons |
| JobsPage.ManyPagesShape | joblynk-fend/src/routes/jobs.tsx:127-143 | with more than five pages and the current page at most two past the last, the row starts at page 1, ends at the last page, shows the current page, and every `...` sits between pages at least two apart |
| JobsPage.StalePageLosesLastPage | joblynk-fend/src/routes/jobs.tsx:128-143 | as written: six pages with page 9 current give just page 1 and a gap, without the last page |
| JobsPage.ClampedRowShape | joblynk-fend/src/routes/jobs.tsx:128-143 | with the current page first clamped to the last page, the row always starts at 1, ends at the last page and bridges its gaps |
| JobsPage.Page.constructor | joblynk-fend/src/routes/jobs.tsx:48-74 | page 1, no job selected, the search taken from the address bar with missing parameters read as empty |
| JobsPage.Page.OnSubmit | joblynk-fend/src/routes/jobs.tsx:76-79 | submitting replaces the three search values and drops the selection; the page stays |
| JobsPage.Page.ResetSearch | joblynk-fend/src/routes/jobs.tsx:81-90 | back to page 1 with an empty search and no selection |
| JobsPage.Page.HandleJobSelect | joblynk-fend/src/routes/jobs.tsx:92-94 | selects the job and changes nothing else |
| JobsPage.Page.HandlePageChange | joblynk-fend/src/routes/jobs.tsx:96-101 | goes to the page and drops the selection; the search stays |
| JobsPage.Page.HandlePrevPage | joblynk-fend/src/routes/jobs.tsx:103-107 | one page back and no selection when past page 1, otherwise nothing changes; the page never drops below 1 |
| JobsPage.Page.HandleNextPage | joblynk-fend/src/routes/jobs.tsx:109-113 | one page on and no selection when the listing has loaded and this is not its last page, otherwise nothing changes; the page never passes the last |
| JobsPage.Page.GetPageNumbers | joblynk-fend/src/routes/jobs.tsx:116-147 | the row built by pushing buttons one at a time is the page-button row of the listing and current page |
| JobFormatters.TypeColor | joblynk-fend/src/components/jobCard.tsx:15-28 | the gray badge exactly for a string that is not one of the four job types |
| JobFormatters.TypeColorsDistinct | joblynk-fend/src/components/jobDetailedView.tsx:96-109 | the four job types get four different badges |
| JobFormatters.FormatJobType | joblynk-fend/src/components/jobCard.tsx:30-43 | a job type is shown with its label, any other string as it is |
| JobFormatters.JobTypeLabelsDistinct | joblynk-fend/src/components/jobDetailedView.tsx:111-124 | different job types get different labels, and no label is itself a stored job type |
| JobFormatters.CurrencySign | joblynk-fend/src/components/jobCard.tsx:48 | never empty: the job's own currency when it has one, `$` otherwise |
| JobFormatters.FormatSalary | joblynk-fend/src/components/jobCard.tsx:45-59 | the four shapes of the salary line, chosen by which bounds are present and non-zero |
| JobFormatters.ZeroSalaryIsMissing | joblynk-fend/src/components/jobDetailedView.tsx:126-141 | a zero bound gives the same line as a missing one |
| JobFormatters.SalaryNamesCurrency | joblynk-fend/src/components/jobDetailedView.tsx:126-141 | whenever a bound is given, the line contains the currency sign |
| JobFormatters.DiffDays | joblynk-fend/src/components/jobCard.tsx:66-67 | the distance between the instants in whole days, rounded up |
| JobFormatters.AgeOf | joblynk-fend/src/components/jobCard.tsx:69-72 | days below a week, weeks (one to five, rounded up) below thirty days, months of thirty days (rounded up) beyond |
| JobFormatters.AgeMonotone | joblynk-fend/src/components/jobCard.tsx:69-72 | an older job never shows a smaller unit, nor a smaller count in the same unit |
| JobFormatters.FormatPostedDate | joblynk-fend/src/components/jobCard.tsx:61-73 | `Recently posted` without a date, otherwise the text of the age against the current time |
| JobFormatters.PostedDateSymmetric | joblynk-fend/src/components/jobDetailedView.tsx:143-155 | a date as far in the future reads the same as one in the past |
| JobFormatters.StatusColor | joblynk-fend/src/components/jobDetailedView.tsx:157-170 | the gray badge exactly for a string that is not one of the four statuses |
| JobFormatters.StatusColorsDistinct | joblynk-fend/src/components/jobDetailedView.tsx:157-170 | the four statuses get four different badges |
| JobFormatters.FormatStatus | joblynk-fend/src/components/jobDetailedView.tsx:172-174 | same length; the first character upper-cased and the rest lower-cased |
| JobFormatters.FormatStatusIgnoresCase | joblynk-fend/src/components/jobDetailedView.tsx:172-174 | the label depends only on the letters, not their case, and formatting it again changes nothing |
| JobFormatters.ApplyPanel.constructor | joblynk-fend/src/components/jobDetailedView.tsx:28 | no confirmation shown, nothing opened, nothing submitted |
| JobFormatters.ApplyPanel.HandleApplyClick | joblynk-fend/src/components/jobDetailedView.tsx:176-186 | nothing without an apply URL or for a job that is not active; otherwise Easy Apply shows the confirmation and any other job opens its URL; nothing is submitted; the popup of line 347 is then up exactly for an Easy Apply job that was already confirming or is active with a URL |
| JobFormatters.ApplyPanel.HandleConfirmEasyApply | joblynk-fend/src/components/jobDetailedView.tsx:188-191 | submits one application for the job and closes the confirmation, so the popup is gone |
| JobFormatters.ApplyPanel.HandleCancelEasyApply | joblynk-fend/src/components/jobDetailedView.tsx:193-195 | only closes the confirmation, so the popup is gone |
| CreateJobForm.SkillList | joblynk-fend/src/components/createJobForm.tsx:40-42 | no skills for empty text; otherwise one trimmed piece per comma-separated part, none holding a comma or starting or ending with whitespace |
| CreateJobForm.TrimInside | joblynk-fend/src/components/createJobForm.tsx:41 | trimming a piece brings in no character it did not have |
| CreateJobForm.TransformAndSubmit | joblynk-fend/src/components/createJobForm.tsx:37-45 | the skills text becomes the skill list and every other field is handed on unchanged |
| CreateJobForm.SkillsSplitLosesNothing | joblynk-fend/src/components/createJobForm.tsx:41 | joining the split pieces with commas gives back the skills text |
| CreateJobForm.ApplyUrlAccepts | joblynk-fend/src/components/createJobForm.tsx:213-218 | `ftp`, `http` or `https`, then `://` and a rest with no space or double quote, is accepted |
| CreateJobForm.ApplyUrlBlankFree | joblynk-fend/src/components/createJobForm.tsx:213-218 | an accepted URL has no space and no double quote and at least seven characters |
| CreateJobForm.Validate | joblynk-fend/src/components/createJobForm.tsx:66-237 | no message exactly when title, description, location, job type and status are filled in and the apply URL matches its pattern |
| CreateJobForm.OptionalFieldsUnchecked | joblynk-fend/src/components/createJobForm.tsx:124-271 | salaries, currency, expiry date, Easy Apply and skills never change the messages |
| CreateJobForm.HandleSubmit | joblynk-fend/src/components/createJobForm.tsx:48-49 | the data goes on, transformed, exactly when no message is shown and, for a non-empty apply URL, the browser's own check of the `type="url"` input at line 212 accepts it |
| DashboardJobs.SalaryColumn | joblynk-fend/src/routes/dashboard/jobs.tsx:120-129 | `N/A` exactly when neither bound is present and non-zero; otherwise the range, `From` a lower bound or `Up to` an upper bound, then the currency as stored |
| DashboardJobs.SalaryColumnEndsWithCurrency | joblynk-fend/src/routes/dashboard/jobs.tsx:120-129 | with a bound given, the column ends with a space and the currency text |
| DashboardJobs.JobTypeColumn | joblynk-fend/src/routes/dashboard/jobs.tsx:111-115 | same length; the first character upper-cased and in the rest only the first `-` made a space |
| DashboardJobs.JobTypeColumnOneHyphen | joblynk-fend/src/routes/dashboard/jobs.tsx:115 | the first hyphen after the first character becomes a space and every later character is kept, a later hyphen included |
| DashboardJobs.StatusColumn | joblynk-fend/src/routes/dashboard/jobs.tsx:169 | same length; the first character upper-cased and the rest kept |
| DashboardJobs.StatusColumnAgrees | joblynk-fend/src/routes/dashboard/jobs.tsx:169 | for a status without capitals the table reads the same as the detailed view's label |
| DashboardJobs.StatusBadge | joblynk-fend/src/routes/dashboard/jobs.tsx:159-166 | the gray badge exactly for a status other than active, draft and expired |
| DashboardJobs.StatusBadgesAgreeButFilled | joblynk-fend/src/routes/dashboard/jobs.tsx:159-166 | the table colours every status as the detailed view does, except filled |
| DashboardJobs.HandleCreateJobSubmit | joblynk-fend/src/routes/dashboard/jobs.tsx:73-92 | salaries kept as they are, empty currency and expiry date made null, the three timestamps the current time, the recruiter id the placeholder, every other field copied |
| DashboardJobs.BlankSalaryIsNotNull | joblynk-fend/src/routes/dashboard/jobs.tsx:79 | a salary left blank arrives as NaN, not as null |
| FormRules.Required | joblynk-fend/src/components/userProfileEditModal.tsx:120 | no message exactly for a non-empty value, otherwise the one `required` message |
| FormRules.RequiredMinLength | joblynk-fend/src/routes/onboarding/personal.tsx:97-103 | no message exactly for a value that is non-empty and long enough; the `required` message for the empty value and the `minLength` message for a short one |
| FormRules.RequiredPattern | joblynk-fend/src/routes/onboarding/personal.tsx:170-176 | no message exactly for a non-empty matching value; the `required` message for the empty value and the `pattern` message for a mismatch |
| FormRules.OptionalPattern | joblynk-fend/src/components/userProfileEditModal.tsx:178-183 | the empty value is never checked; otherwise the `pattern` message exactly on a mismatch |
| UserProfileModal.DefaultValues | joblynk-fend/src/components/userProfileEditModal.tsx:53-70 | names and e-mail as given; the phone as given, or empty when it is null, missing or empty |
| UserProfileModal.Validate | joblynk-fend/src/components/userProfileEditModal.tsx:120-183 | no message exactly when both names are given and the phone matches `^\+?[0-9()\-\s]*$` |
| UserProfileModal.OnSubmit | joblynk-fend/src/components/userProfileEditModal.tsx:81-86 | only without messages; names and e-mail handed on as they are and an empty phone as null |
| UserProfileModal.EmptyPhoneAccepted | joblynk-fend/src/components/userProfileEditModal.tsx:178-183 | with no phone the form is valid exactly when both names are given |
| UserProfileModal.SaveUnchanged | joblynk-fend/src/components/userProfileEditModal.tsx:53-86 | opening on a valid profile and saving at once hands the profile back, an empty phone as null |
| UserProfileModal.PhoneNeedsNoDigit | joblynk-fend/src/components/userProfileEditModal.tsx:180 | a lone `+`, a pair of parentheses and a run of spaces all pass as a phone number |
| PersonalStep.Validate | joblynk-fend/src/routes/onboarding/personal.tsx:97-176 | no message exactly when both names have at least two characters and the phone matches `^[+]?[1-9][\d]{0,15}$` |
| PersonalStep.HandleSubmit | joblynk-fend/src/routes/onboarding/personal.tsx:47-49 | the user is created from the four values as they are, and only without messages |
| PersonalStep.OnCreateSuccess | joblynk-fend/src/routes/onboarding/personal.tsx:50-60 | the store takes the created user's names and e-mail with an empty role, and the layout moves to the next step |
| PersonalStep.PhoneRejections | joblynk-fend/src/routes/onboarding/personal.tsx:173 | a leading 0 (also after `+`), a space or a dash rejects a phone number, and an accepted one has at most sixteen digits |
| PersonalStep.PhoneCharacters | joblynk-fend/src/routes/onboarding/personal.tsx:173 | an accepted phone number is digits with at most a leading `+` |
| PersonalStep.ModalAcceptsOnboardingPhone | joblynk-fend/src/routes/onboarding/personal.tsx:173 | every phone number onboarding accepts is accepted by the profile modal too |
| PersonalStep.ModalIsMoreLenient | joblynk-fend/src/components/userProfileEditModal.tsx:180 | the modal takes an empty phone and one with spaces, dashes and parentheses, which onboarding rejects |
| RecruiterProfileModal.DefaultValues | joblynk-fend/src/components/recruiterProfileEditModal.tsx:47-58 | each value as given, or empty when it is null or empty |
| RecruiterProfileModal.GroupsSplit | joblynk-fend/src/components/recruiterProfileEditModal.tsx:135 | a path that starts with a slash is cut into slash-led groups with no further slash, which join back into it |
| RecruiterProfileModal.GroupsArePathGroups | joblynk-fend/src/components/recruiterProfileEditModal.tsx:135 | any run of such groups is empty or starts with a slash, so the path part matches exactly those strings |
| RecruiterProfileModal.ExamplesAccepted | joblynk-fend/src/components/recruiterProfileEditModal.tsx:136-137 | the three examples the error message offers all pass |
| RecruiterProfileModal.WwwSchemeExample | joblynk-fend/src/components/recruiterProfileEditModal.tsx:135 | `https://www.example.com` passes |
| RecruiterProfileModal.SchemeAdded | joblynk-fend/src/components/recruiterProfileEditModal.tsx:135 | a website that passes without a scheme still passes with `https://` in front |
| RecruiterProfileModal.DotFollowsLabel | joblynk-fend/src/components/recruiterProfileEditModal.tsx:135 | every accepted website has a dot right after a letter, digit or hyphen |
| RecruiterProfileModal.NeedsLabelBeforeDot | joblynk-fend/src/components/recruiterProfileEditModal.tsx:135 | a value without a dot, or starting with one, is rejected |
| RecruiterProfileModal.Validate | joblynk-fend/src/components/recruiterProfileEditModal.tsx:106-137 | no message exactly when the company name has at least two characters and the website matches the pattern |
| RecruiterProfileModal.OnSubmit | joblynk-fend/src/components/recruiterProfileEditModal.tsx:71-73 | the values go to `onSave` unchanged, and only without messages |
| RecruiterProfileModal.SaveUnchanged | joblynk-fend/src/components/recruiterProfileEditModal.tsx:47-73 | opening on a valid profile and saving at once hands back the same name and website |
| RecruiterProfileModal.MissingWebsiteBlocksSave | joblynk-fend/src/components/recruiterProfileEditModal.tsx:131-132 | a profile without a website cannot be saved as the modal opens, and its last message is that the website is required |
| CompanyStep.NoDotBeforeSlash | joblynk-fend/src/routes/onboarding/company.tsx:85 | a value with a slash before any dot, and not starting with `www.`, never passes |
| CompanyStep.SchemeNeverMatches | joblynk-fend/src/routes/onboarding/company.tsx:85 | no website written with `http://` or `https://` passes |
| CompanyStep.PlaceholderNeverMatches | joblynk-fend/src/routes/onboarding/company.tsx:85-92 | as written: the placeholder `https://www.example.com` does not pass the pattern |
| CompanyStep.ExamplesAccepted | joblynk-fend/src/routes/onboarding/company.tsx:85 | `www.example.com` and `example.com/jobs` pass |
| CompanyStep.WebsiteRulesDisagree | joblynk-fend/src/routes/onboarding/company.tsx:85 | the profile modal accepts the placeholder, which the step rejects, and the step accepts `a@b.com`, which the modal rejects |
| CompanyStep.SchemeRuleAcceptsPlaceholder | joblynk-fend/src/routes/onboarding/company.tsx:85-92 | corrected: the pattern behind an optional scheme accepts the placeholder |
| CompanyStep.SchemeRuleExtends | joblynk-fend/src/routes/onboarding/company.tsx:85 | corrected: everything the pattern accepts is still accepted, also with `http://` or `https://` in front |
| CompanyStep.Validate | joblynk-fend/src/routes/onboarding/company.tsx:54-88 | no message exactly when the company name has at least two characters and the website matches the pattern |
| CompanyStep.OnValidSubmit | joblynk-fend/src/routes/onboarding/company.tsx:28-33 | only without messages, the layout moves to the next step |
| CompanyStep.PlaceholderBlocksSubmit | joblynk-fend/src/routes/onboarding/company.tsx:85-92 | entering the website as the placeholder shows it always keeps the step from moving on |
| CompanyStep.SubmitIgnoresData | joblynk-fend/src/routes/onboarding/company.tsx:28-33 | which valid data is entered makes no difference to the outcome |
| Strings.IndexOf | joblynk-fend/src/routes/dashboard/jobs.tsx:115 | the first index holding the character, or none exactly when it does not occur |
| Strings.ReplaceFirst | joblynk-fend/src/routes/dashboard/jobs.tsx:115 | `replace` with a one-character pattern changes only the first occurrence, and nothing when there is none |
| Strings.Trim | joblynk-fend/src/components/createJobForm.tsx:41 | the result is a piece of the input that neither starts nor ends with whitespace |
| Strings.TrimRemovesWhitespace | joblynk-fend/src/components/createJobForm.tsx:41 | everything cut off either end is whitespace |
| Strings.Split | joblynk-fend/src/components/createJobForm.tsx:41 | one piece more than there are separators, none holding the separator |
| Strings.JoinSplit | joblynk-fend/src/components/createJobForm.tsx:41 | joining the pieces with the separator gives back the input |
| Strings.NatToString | joblynk-fend/src/routes/dashboard/jobs.tsx:122 | a non-empty run of digits, with a leading 0 only for zero |
| Strings.DigitsValueOfNatToString | joblynk-fend/src/routes/dashboard/jobs.tsx:122 | the value of a number's numeral is the number |
| Strings.ParseIntNaN | joblynk-be/src/controllers/jobs.controller.ts:54-55 | `parseInt` gives NaN exactly when no digit follows the leading whitespace and sign |
| Strings.ParseIntOfIntToString | joblynk-be/src/controllers/jobs.controller.ts:54-55 | `parseInt` reads back any integer's numeral, after whitespace and before text not starting with a digit |

## Left out

- Authentication (WorkOS sessions), file storage (S3 presigned URLs), axios and fetch plumbing, and the frontend service wrappers. These are calls into foreign SDKs and the network. The authenticated user id is an input.
- Application wiring: `app.ts`, `server.ts`, configuration, model registration and associations. The route files contribute only which `checkRole` guard sits on each route, and that is modelled as a precondition.
- `joblynk-be/src/controllers/user.controller.ts` is not part of this model: it calls a service function that `user.service.ts` does not define.
- `joblynk-fend/src/hooks/useOnboardingStep.ts` is not part of this model: it imports names the step table does not export, and its progress value is floating point.
- UI-only and widget-state components: modals, popups, the navigation bar, the remaining onboarding steps, the dashboard layout, and the application tables driven by tanstack-table. The posted-date column of the recruiter table uses `toLocaleDateString` and is left out too.
- Trivial setter stores and type-only files: the user, auth and search stores, and the constants and type declarations.
- `ILIKE` is modelled as substring matching after ASCII case folding. Wildcard characters in the search text and Unicode case folding are outside the model.
- UUID generation and `Date` values: ids and timestamps are parameters. Ties in `ORDER BY ... DESC` are left unspecified; results are stated as non-increasing and as a reordering of the matching rows.
- `toLocaleString` is the `show` parameter of `JobFormatters.FormatSalary`. The `isUrl` check on `companyUrl` is the `isUrl` parameter of the recruiter operations, and the browser's URL check of the job form's apply-URL input is the `urlValid` parameter of `CreateJobForm.HandleSubmit`.
- `Number(q)` is taken as already parsed: an integer, or nothing for NaN. Fractional and exponent notations, and numbers beyond the safe integer range, are outside the model.
- ApplicationService.GetPaginatedApplications: requires a non-zero page size. With 0, JavaScript computes `totalPages` as `Infinity` or `NaN`, which the integer model has no value for. The controllers never pass 0.
- ApplicationService.GetPaginatedApplicationsByRecruiter: requires a non-zero page size, for the same reason.
- JobsService.GetPaginatedJobs: requires a non-zero page size, for the same reason.
- The nested `include` of a job's recruiter in the seekers' application listing is not modelled. The listing carries the job's own fields.
- ApplicationService.SeekerPage, ApplicationService.RecruiterPage, ApplicationService.GetPaginatedApplications, ApplicationService.GetPaginatedApplicationsByRecruiter and ApplicationService.GetApplicationById take the `job` include of `application.service.ts` to resolve as a join on `jobId`. Neither that alias nor the `seeker` alias of the recruiter listing and the lookup is declared for applications in `models/assossiations.ts`, so as written Sequelize refuses each of these queries (an eager-loading error) before running it; the controllers answer that with 500. The same holds for ApplicationController.GetApplicationsHandler, ApplicationController.GetRecruiterApplicationsHandler, ApplicationController.UpdateStatusGuard and ApplicationController.UpdateApplicationStatusHandler, which are built on them. The `seeker` include, with its nested user, is not modelled at all: with no association its shape is undefined.
- `jobs.recruiterId` is declared INTEGER while recruiter ids are UUID strings. All ids are opaque strings, so that mismatch is not modelled.
- Database connection faults and the exact wording of driver errors are outside the model. A failing write is one of the constraint errors the schema defines.
- Request bodies carry only strings and nulls. Other JSON values, and keys that are not attributes of the model, are outside the model.
- SeekerController.SeekerPatchOf and RecruiterController.RecruiterPatchOf ignore an `id` key in an update body, although `update(body)` would write it to the primary key.
- JobFormatters.FormatStatus, DashboardJobs.JobTypeColumn, DashboardJobs.StatusColumn, Strings.ToUpper and Strings.ToLower map the ASCII letters only. JavaScript's `toUpperCase` and `toLowerCase` also map other Unicode letters, and can change a string's length.
- Concurrency: `createApplication`'s check-then-insert runs as one step. There is no database constraint behind it, so two concurrent requests could both pass; that race is not modelled.
- Job deletion has no endpoint, so `rejectApplicationsByJobId` is modelled on its own.
- Onboarding store indices are integers. Fractional indices, and `minLength` counted in UTF-16 code units rather than characters, are outside the model.
- The disabled e-mail input of the personal-information modal has no rule and is handed on unchanged. Dirty-state tracking of the save buttons, the server-error message set on the form, closing and resetting the modals, and the console logging of company data are not modelled.
- The jobs page holds the selected job as its id rather than the whole job record.
- The onboarding steps call `handleNextStep` through an optional navigation context. The case where the context is missing is not modelled, and the layout always moves.

## Findings

| source | as written | input that shows it | evidently intended | confidence | as-written member | corrected member |
|---|---|---|---|---|---|---|
| joblynk-fend/src/routes/jobs.tsx:128-143 | the window starts two pages before the current page even when that page lies past the last (the search has narrowed the listing while a later page was open), so the window is empty and the last page is never shown | six pages with page 9 current gives `[1, '...']` | the row always ends at the last page, as it does whenever the current page is on the listing | not executed | JobsPage.StalePageLosesLastPage | JobsPage.ClampedRowShape |
| joblynk-fend/src/routes/onboarding/company.tsx:85, 92 | the website pattern has no scheme part and `/` is not a host character, so any value written with `http://` or `https://` fails | the input's own placeholder `https://www.example.com` | a scheme is optional, as in the profile modal's pattern for the same value | not executed | CompanyStep.PlaceholderNeverMatches | CompanyStep.SchemeRuleAcceptsPlaceholder |
