/** The application routes: each handler is a chain of checks in a fixed
    order (401, 400, 404, 403), then the delegated service call; an
    `ApiError` thrown anywhere answers with its own status and message. */
module ApplicationController {
  import opened Wrappers
  import opened Seqs
  import opened Errors
  import opened Schema
  import opened Store
  import opened Requests
  import opened UserService
  import opened ApplicationService
  import opened RoleMiddleware

  /** The caller's seeker profile id: `getUser`'s failure for an unknown
      user, BAD_REQUEST when no seeker profile with a non-empty id is
      attached. */
  function CallerSeekerId(users: seq<User>, seekers: seq<Seeker>, recruiters: seq<Recruiter>, userId: string)
    : (r: Result<string>)
    ensures !HasUser(users, userId) ==> r == Err(ApiError(NOT_FOUND, "User not found."))
    ensures HasUser(users, userId) && r.Err? ==> r == Err(ApiError(BAD_REQUEST, "Seeker profile not found."))
    ensures r.Ok? <==> (
      && HasUser(users, userId)
      && users[UserIndex(users, userId).value].role == Some("seeker")
      && SeekerOfUser(seekers, userId).Some? && SeekerOfUser(seekers, userId).value.id != "")
    ensures r.Ok? ==> r.value == SeekerOfUser(seekers, userId).value.id
  {
    match GetUser(users, seekers, recruiters, userId)
    case Err(f) => Err(f)
    case Ok(u) =>
      if u.seeker.None? || u.seeker.value.id == "" then Err(ApiError(BAD_REQUEST, "Seeker profile not found."))
      else Ok(u.seeker.value.id)
  }

  /** The caller's recruiter profile id, likewise. */
  function CallerRecruiterId(users: seq<User>, seekers: seq<Seeker>, recruiters: seq<Recruiter>, userId: string)
    : (r: Result<string>)
    ensures !HasUser(users, userId) ==> r == Err(ApiError(NOT_FOUND, "User not found."))
    ensures HasUser(users, userId) && r.Err? ==> r == Err(ApiError(BAD_REQUEST, "Recruiter profile not found."))
    ensures r.Ok? <==> (
      && HasUser(users, userId)
      && users[UserIndex(users, userId).value].role == Some("recruiter")
      && RecruiterOfUser(recruiters, userId).Some? && RecruiterOfUser(recruiters, userId).value.id != "")
    ensures r.Ok? ==> r.value == RecruiterOfUser(recruiters, userId).value.id
  {
    match GetUser(users, seekers, recruiters, userId)
    case Err(f) => Err(f)
    case Ok(u) =>
      if u.recruiter.None? || u.recruiter.value.id == "" then Err(ApiError(BAD_REQUEST, "Recruiter profile not found."))
      else Ok(u.recruiter.value.id)
  }

  // ------------------------------------------------------ createApplication

  /** The checks of `createApplication`, in order: the authenticated id,
      the body's jobId, the caller's seeker profile. The attributes carry
      only the jobId from the body; the seekerId is the caller's own. */
  function CreateApplicationGuard(users: seq<User>, seekers: seq<Seeker>, recruiters: seq<Recruiter>,
                                  userId: Option<string>, jobId: Option<string>)
    : (r: Result<ApplicationAttributes>)
    ensures Truthy(userId).None? ==> r == Err(ApiError(UNAUTHORIZED, "User ID missing."))
    ensures Truthy(userId).Some? && Truthy(jobId).None? ==> r == Err(ApiError(BAD_REQUEST, "Job ID is required."))
    ensures Truthy(userId).Some? && Truthy(jobId).Some? ==>
      var caller := CallerSeekerId(users, seekers, recruiters, userId.value);
      && (caller.Err? ==> r == Err(caller.failure))
      && (caller.Ok? ==> r == Ok(ApplicationAttributes(None, jobId.value, caller.value, None, None)))
  {
    if Truthy(userId).None? then Err(ApiError(UNAUTHORIZED, "User ID missing."))
    else if Truthy(jobId).None? then Err(ApiError(BAD_REQUEST, "Job ID is required."))
    else match CallerSeekerId(users, seekers, recruiters, userId.value)
      case Err(f) => Err(f)
      case Ok(seekerId) => Ok(ApplicationAttributes(None, jobId.value, seekerId, None, None))
  }

  /** `createApplication`: CREATED with the new application exactly when
      one row was added, for the caller's own seeker profile; any failed
      check or service error leaves the table as it was. */
  method CreateApplicationHandler(db: Database, userId: Option<string>, jobId: Option<string>, newId: string, now: int)
    returns (res: Response<Application>)
    requires db.Valid()
    modifies db`applications
    ensures db.Valid()
    ensures var g := CreateApplicationGuard(db.users, db.seekers, db.recruiters, userId, jobId);
      && (g.Err? ==> res == ErrorResponse(g.failure) && db.applications == old(db.applications))
      && (g.Ok? && HasApplicationFor(old(db.applications), g.value.seekerId, g.value.jobId) ==>
            res == Response(CONFLICT, "Application already exists", None))
      && (res.status == CREATED ==> (
            && g.Ok? && res.message == "Application submitted successfully."
            && res.data == Some(NewApplication(g.value, newId, now))
            && db.applications == old(db.applications) + [res.data.value]))
    ensures var g := CreateApplicationGuard(db.users, db.seekers, db.recruiters, userId, jobId);
      res.status == CREATED <==> (
        && g.Ok? && !HasApplicationFor(old(db.applications), g.value.seekerId, g.value.jobId)
        && InsertApplication(old(db.applications), db.jobs, db.seekers, NewApplication(g.value, newId, now)).Written?)
    ensures res.status != CREATED ==> db.applications == old(db.applications)
  {
    var g := CreateApplicationGuard(db.users, db.seekers, db.recruiters, userId, jobId);
    if g.Err? {
      return ErrorResponse(g.failure);
    }
    var r := CreateApplication(db, g.value, newId, now);
    if r.Err? {
      return ErrorResponse(r.failure);
    }
    return Response(CREATED, "Application submitted successfully.", Some(r.value));
  }

  // -------------------------------------------------------- the listings

  /** `getApplications`: page and pageSize default to 1 and 10, then the
      caller's seeker profile is required; the rows are the caller's own
      applications. */
  function GetApplicationsHandler(users: seq<User>, seekers: seq<Seeker>, recruiters: seq<Recruiter>,
                                  apps: seq<Application>, jobs: seq<Job>,
                                  userId: Option<string>, page: Option<int>, pageSize: Option<int>)
    : (res: Response<Page<SeekerApplicationRow>>)
    ensures Truthy(userId).None? ==> res == Response(UNAUTHORIZED, "User ID missing.", None)
    ensures Truthy(userId).Some? && CallerSeekerId(users, seekers, recruiters, userId.value).Err? ==>
      res == ErrorResponse(CallerSeekerId(users, seekers, recruiters, userId.value).failure)
    ensures res.status == OK <==> (
      && Truthy(userId).Some? && CallerSeekerId(users, seekers, recruiters, userId.value).Ok?
      && Offset(NumberOr(page, 1), NumberOr(pageSize, 10)) >= 0 && NumberOr(pageSize, 10) > 0)
    ensures res.status == OK ==> (
      && res.data.Some? && res.message == "Applications retrieved successfully."
      && res.data.value.currentPage == NumberOr(page, 1)
      && |res.data.value.rows| <= NumberOr(pageSize, 10)
      && forall i :: 0 <= i < |res.data.value.rows| ==>
           res.data.value.rows[i].application in apps
           && res.data.value.rows[i].application.seekerId == SeekerOfUser(seekers, userId.value).value.id)
    ensures res.status == OK ==>
      res.data == Some(SeekerPage(apps, jobs, NumberOr(page, 1), NumberOr(pageSize, 10),
                                  CallerSeekerId(users, seekers, recruiters, userId.value).value))
  {
    var p := NumberOr(page, 1);
    var ps := NumberOr(pageSize, 10);
    if Truthy(userId).None? then Response(UNAUTHORIZED, "User ID missing.", None)
    else match CallerSeekerId(users, seekers, recruiters, userId.value)
      case Err(f) => ErrorResponse(f)
      case Ok(seekerId) =>
        match GetPaginatedApplications(apps, jobs, p, ps, seekerId)
        case Err(f) => ErrorResponse(f)
        case Ok(pg) => Response(OK, "Applications retrieved successfully.", Some(pg))
  }

  /** `getRecruiterApplications`: as `getApplications` for the caller's
      recruiter profile, with no status filter; the rows are applications
      to the caller's own jobs. */
  function GetRecruiterApplicationsHandler(users: seq<User>, seekers: seq<Seeker>, recruiters: seq<Recruiter>,
                                           apps: seq<Application>, jobs: seq<Job>,
                                           userId: Option<string>, page: Option<int>, pageSize: Option<int>)
    : (res: Response<Page<RecruiterApplicationRow>>)
    ensures Truthy(userId).None? ==> res == Response(UNAUTHORIZED, "User ID missing.", None)
    ensures Truthy(userId).Some? && CallerRecruiterId(users, seekers, recruiters, userId.value).Err? ==>
      res == ErrorResponse(CallerRecruiterId(users, seekers, recruiters, userId.value).failure)
    ensures res.status == OK <==> (
      && Truthy(userId).Some? && CallerRecruiterId(users, seekers, recruiters, userId.value).Ok?
      && Offset(NumberOr(page, 1), NumberOr(pageSize, 10)) >= 0 && NumberOr(pageSize, 10) > 0)
    ensures res.status == OK ==> (
      && res.data.Some? && res.message == "Applications retrieved successfully."
      && res.data.value.currentPage == NumberOr(page, 1)
      && |res.data.value.rows| <= NumberOr(pageSize, 10)
      && forall i :: 0 <= i < |res.data.value.rows| ==>
           res.data.value.rows[i].application in apps
           && OfRecruiter(jobs, RecruiterOfUser(recruiters, userId.value).value.id, None, res.data.value.rows[i].application))
    ensures res.status == OK ==>
      res.data == Some(RecruiterPage(apps, jobs, CallerRecruiterId(users, seekers, recruiters, userId.value).value,
                                     NumberOr(page, 1), NumberOr(pageSize, 10), None))
  {
    var p := NumberOr(page, 1);
    var ps := NumberOr(pageSize, 10);
    if Truthy(userId).None? then Response(UNAUTHORIZED, "User ID missing.", None)
    else match CallerRecruiterId(users, seekers, recruiters, userId.value)
      case Err(f) => ErrorResponse(f)
      case Ok(recruiterId) =>
        match GetPaginatedApplicationsByRecruiter(apps, jobs, recruiterId, p, ps, None)
        case Err(f) => ErrorResponse(f)
        case Ok(pg) =>
          assert StatusFilter(None) == Ok(None);
          Response(OK, "Applications retrieved successfully.", Some(pg))
  }

  // ------------------------------------------------ updateApplicationStatus

  /** The checks of `updateApplicationStatus`, in order: the
      authenticated id, the caller's recruiter profile, the application
      (with its job), and that the job belongs to the caller. */
  function UpdateStatusGuard(users: seq<User>, seekers: seq<Seeker>, recruiters: seq<Recruiter>,
                             apps: seq<Application>, jobs: seq<Job>, userId: Option<string>, applicationId: string)
    : (r: Result<ApplicationDetail>)
    ensures Truthy(userId).None? ==> r == Err(ApiError(UNAUTHORIZED, "User ID missing."))
    ensures Truthy(userId).Some? && CallerRecruiterId(users, seekers, recruiters, userId.value).Err? ==>
      r == Err(CallerRecruiterId(users, seekers, recruiters, userId.value).failure)
    ensures Truthy(userId).Some? && CallerRecruiterId(users, seekers, recruiters, userId.value).Ok? ==>
      var recruiterId := CallerRecruiterId(users, seekers, recruiters, userId.value).value;
      var found := GetApplicationById(apps, jobs, applicationId);
      && (found.None? ==> r == Err(ApiError(NOT_FOUND, "Application not found.")))
      && (found.Some? && found.value.jobRecruiterId != recruiterId ==>
            r == Err(ApiError(FORBIDDEN, "You are not authorized to update this application.")))
      && (found.Some? && found.value.jobRecruiterId == recruiterId ==> r == Ok(found.value))
  {
    if Truthy(userId).None? then Err(ApiError(UNAUTHORIZED, "User ID missing."))
    else match CallerRecruiterId(users, seekers, recruiters, userId.value)
      case Err(f) => Err(f)
      case Ok(recruiterId) =>
        match GetApplicationById(apps, jobs, applicationId)
        case None => Err(ApiError(NOT_FOUND, "Application not found."))
        case Some(detail) =>
          if detail.jobRecruiterId != recruiterId then
            Err(ApiError(FORBIDDEN, "You are not authorized to update this application."))
          else Ok(detail)
  }

  /** `updateApplicationStatus`: the status is written only when every
      check passes; a failed check answers as the guard says and changes
      nothing. */
  method UpdateApplicationStatusHandler(db: Database, userId: Option<string>, applicationId: string, status: Field<string>)
    returns (res: Response<Application>)
    requires db.Valid()
    modifies db`applications
    ensures db.Valid()
    ensures var g := UpdateStatusGuard(db.users, db.seekers, db.recruiters, old(db.applications), db.jobs, userId, applicationId);
      && (g.Err? ==> res == ErrorResponse(g.failure) && db.applications == old(db.applications))
      && (res.status == OK ==> (
            && g.Ok? && res.message == "Application status updated successfully." && res.data.Some?
            && res.data.value.id == applicationId
            && ApplicationIndex(old(db.applications), applicationId).Some?
            && db.applications == old(db.applications)[ApplicationIndex(old(db.applications), applicationId).value := res.data.value]))
      && (g.Ok? && !(status.Given? && status.value in Enums.APPLICATION_STATUS_VALUES) ==>
            res == Response(INTERNAL_SERVER_ERROR, "Invalid application status: " + FieldText(status), None)
            && db.applications == old(db.applications))
    ensures var g := UpdateStatusGuard(db.users, db.seekers, db.recruiters, old(db.applications), db.jobs, userId, applicationId);
      res.status == OK <==> g.Ok? && status.Given? && status.value in Enums.APPLICATION_STATUS_VALUES
    ensures res.status == OK ==>
      var k := ApplicationIndex(old(db.applications), applicationId).value;
      && Enums.ApplicationStatusValue(res.data.value.status) == status.value
      && res.data.value == old(db.applications)[k].(status := res.data.value.status)
  {
    var g := UpdateStatusGuard(db.users, db.seekers, db.recruiters, db.applications, db.jobs, userId, applicationId);
    if g.Err? {
      return ErrorResponse(g.failure);
    }
    OnlyOwnApplications(db.users, db.seekers, db.recruiters, db.applications, db.jobs, userId, applicationId);
    var r := UpdateApplicationStatus(db, applicationId, status);
    if r.Err? {
      assert r.failure.message == "Invalid application status: " + FieldText(status);
      return ErrorResponse(r.failure);
    }
    return Response(OK, "Application status updated successfully.", Some(r.value));
  }

  /** A recruiter changes only applications to its own jobs: whenever
      the guard lets an update through, the application's job belongs to
      the caller's recruiter profile. */
  lemma OnlyOwnApplications(users: seq<User>, seekers: seq<Seeker>, recruiters: seq<Recruiter>,
                            apps: seq<Application>, jobs: seq<Job>, userId: Option<string>, applicationId: string)
    requires UpdateStatusGuard(users, seekers, recruiters, apps, jobs, userId, applicationId).Ok?
    ensures Truthy(userId).Some? && HasUser(users, userId.value)
    ensures var a := apps[ApplicationIndex(apps, applicationId).value];
      && ApplicationIndex(apps, applicationId).Some?
      && JobById(jobs, a.jobId).Some?
      && JobById(jobs, a.jobId).value.recruiterId == RecruiterOfUser(recruiters, userId.value).value.id
      && RecruiterOfUser(recruiters, userId.value).value.userId == userId.value
  {
    var recruiterId := CallerRecruiterId(users, seekers, recruiters, userId.value).value;
    assert GetApplicationById(apps, jobs, applicationId).Some?;
  }

  /** Behind `checkRole("seeker")` the caller exists and carries no
      recruiter profile, so `getUser`'s NOT_FOUND cannot reach the
      seeker handlers; only a missing seeker profile can still stop them. */
  lemma SeekerRouteGuard(users: seq<User>, seekers: seq<Seeker>, recruiters: seq<Recruiter>, userId: Option<string>, lookupFails: bool)
    requires CheckRole(users, userId, "seeker", lookupFails).Next?
    ensures Truthy(userId).Some?
    ensures GetUser(users, seekers, recruiters, userId.value).Ok?
    ensures GetUser(users, seekers, recruiters, userId.value).value.recruiter.None?
    ensures CallerSeekerId(users, seekers, recruiters, userId.value).Ok? <==>
      (SeekerOfUser(seekers, userId.value).Some? && SeekerOfUser(seekers, userId.value).value.id != "")
  {
    assert RoleOf(users, userId.value) == Some(Some("seeker"));
  }

  /** Behind `checkRole("recruiter")` likewise for the recruiter handlers. */
  lemma RecruiterRouteGuard(users: seq<User>, seekers: seq<Seeker>, recruiters: seq<Recruiter>, userId: Option<string>, lookupFails: bool)
    requires CheckRole(users, userId, "recruiter", lookupFails).Next?
    ensures Truthy(userId).Some?
    ensures GetUser(users, seekers, recruiters, userId.value).Ok?
    ensures GetUser(users, seekers, recruiters, userId.value).value.seeker.None?
    ensures CallerRecruiterId(users, seekers, recruiters, userId.value).Ok? <==>
      (RecruiterOfUser(recruiters, userId.value).Some? && RecruiterOfUser(recruiters, userId.value).value.id != "")
  {
    assert RoleOf(users, userId.value) == Some(Some("recruiter"));
  }
}
