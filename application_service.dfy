/** The application service: creating an application after a duplicate
    check, status updates validated against the enumeration, the two
    paginated listings, the lookup by id, and the bulk rejection of a
    job's applications. */
module ApplicationService {
  import opened Wrappers
  import opened Seqs
  import opened Errors
  import opened Enums
  import opened Schema
  import opened Store

  /** No seeker has applied twice to the same job. The schema has no
      UNIQUE constraint for this; only `CreateApplication`'s check keeps it. */
  predicate NoDuplicateApplications(apps: seq<Application>)
  {
    forall i, j :: 0 <= i < j < |apps| ==>
      apps[i].seekerId != apps[j].seekerId || apps[i].jobId != apps[j].jobId
  }

  predicate HasApplicationFor(apps: seq<Application>, seekerId: string, jobId: string)
  {
    exists i :: 0 <= i < |apps| && apps[i].seekerId == seekerId && apps[i].jobId == jobId
  }

  /** `createApplication`: a CONFLICT `ApiError` when the seeker already
      applied to the job; otherwise the row built from the attributes is
      inserted, or the database's refusal is the error. */
  method CreateApplication(db: Database, attrs: ApplicationAttributes, newId: string, now: int)
    returns (r: Result<Application>)
    requires db.Valid()
    modifies db`applications
    ensures db.Valid()
    ensures HasApplicationFor(old(db.applications), attrs.seekerId, attrs.jobId) ==>
      r == Err(ApiError(CONFLICT, "Application already exists"))
    ensures r.Err? ==> db.applications == old(db.applications)
    ensures r.Err? ==> r.failure == ApiError(CONFLICT, "Application already exists") || r.failure.OtherError?
    ensures r.Ok? ==> r.value == NewApplication(attrs, newId, now) && db.applications == old(db.applications) + [r.value]
    ensures r.Ok? <==> (!HasApplicationFor(old(db.applications), attrs.seekerId, attrs.jobId)
      && InsertApplication(old(db.applications), db.jobs, db.seekers, NewApplication(attrs, newId, now)).Written?)
    ensures NoDuplicateApplications(old(db.applications)) ==> NoDuplicateApplications(db.applications)
  {
    var existing := Find(db.applications, (a: Application) => a.seekerId == attrs.seekerId && a.jobId == attrs.jobId);
    if existing.Some? {
      return Err(ApiError(CONFLICT, "Application already exists"));
    }
    var row := NewApplication(attrs, newId, now);
    var written := InsertApplication(db.applications, db.jobs, db.seekers, row);
    if written.Refused? {
      return Err(DbFailure(written.error));
    }
    db.applications := written.row;
    return Ok(row);
  }

  /** Index of the application with primary key `id`. */
  function ApplicationIndex(apps: seq<Application>, id: string): (r: Option<nat>)
    ensures r.Some? ==> r.value < |apps| && apps[r.value].id == id
    ensures r.None? ==> forall i :: 0 <= i < |apps| ==> apps[i].id != id
  {
    FindIndex(apps, (a: Application) => a.id == id)
  }

  /** `updateApplicationStatus`: "Application not found" for an unknown
      id, then "Invalid application status" for a value outside the
      enumeration (any member is accepted whatever the current status);
      otherwise only that row's status changes. */
  method UpdateApplicationStatus(db: Database, applicationId: string, status: Field<string>)
    returns (r: Result<Application>)
    requires db.Valid()
    modifies db`applications
    ensures db.Valid()
    ensures ApplicationIndex(old(db.applications), applicationId).None? ==>
      r == Err(PlainError("Application not found")) && db.applications == old(db.applications)
    ensures ApplicationIndex(old(db.applications), applicationId).Some? && !(status.Given? && status.value in APPLICATION_STATUS_VALUES) ==>
      r == Err(PlainError("Invalid application status: " + FieldText(status))) && db.applications == old(db.applications)
    ensures r.Ok? <==> ApplicationIndex(old(db.applications), applicationId).Some? && status.Given? && status.value in APPLICATION_STATUS_VALUES
    ensures r.Ok? ==>
      var k := ApplicationIndex(old(db.applications), applicationId).value;
      ApplicationStatusValue(r.value.status) == status.value
      && r.value == old(db.applications)[k].(status := r.value.status)
      && db.applications == old(db.applications)[k := r.value]
  {
    var found := ApplicationIndex(db.applications, applicationId);
    if found.None? {
      return Err(PlainError("Application not found"));
    }
    var parsed := if status.Given? then ParseApplicationStatus(status.value) else None;
    if parsed.None? {
      return Err(PlainError("Invalid application status: " + FieldText(status)));
    }
    var k := found.value;
    var updated := db.applications[k].(status := parsed.value);
    KeysDistinctUpdate(db.applications, k, updated, ApplicationKey);
    db.applications := db.applications[k := updated];
    return Ok(updated);
  }

  // ------------------------------------------------------------ listings

  /** The job attributes the listings include. */
  datatype JobSummary = JobSummary(id: string, title: string, location: string, jobType: JobType)

  function Summary(j: Job): JobSummary
  {
    JobSummary(j.id, j.title, j.location, j.jobType)
  }

  /** The job with primary key `id`. */
  function JobById(jobs: seq<Job>, id: string): (r: Option<Job>)
    ensures r.Some? ==> r.value in jobs && r.value.id == id
    ensures r.None? <==> !HasJob(jobs, id)
  {
    Find(jobs, (j: Job) => j.id == id)
  }

  function ApplicationDate(a: Application): int { a.applicationDate }

  /** A row of a seeker's listing: the job is a LEFT JOIN, absent when the
      job row is missing. */
  datatype SeekerApplicationRow = SeekerApplicationRow(application: Application, job: Option<JobSummary>)

  function SeekerRow(jobs: seq<Job>, a: Application): SeekerApplicationRow
  {
    SeekerApplicationRow(a, if JobById(jobs, a.jobId).Some? then Some(Summary(JobById(jobs, a.jobId).value)) else None)
  }

  /** The WHERE clause of the seeker listing: an empty seekerId adds no
      condition. */
  predicate OfSeeker(seekerId: string, a: Application)
  {
    seekerId == "" || a.seekerId == seekerId
  }

  /** The WHERE clause of the seeker listing as a predicate on rows. */
  function SeekerWhere(seekerId: string): Application -> bool
  {
    a => OfSeeker(seekerId, a)
  }

  /** The rows the WHERE clause of the seeker listing selects: each of the
      seeker's applications as often as the table holds it, and no other. */
  function SeekerApplications(apps: seq<Application>, seekerId: string): (r: seq<Application>)
    ensures forall i :: 0 <= i < |r| ==> r[i] in apps && OfSeeker(seekerId, r[i])
    ensures forall i :: 0 <= i < |apps| && OfSeeker(seekerId, apps[i]) ==> apps[i] in r
    ensures forall a :: multiset(r)[a] == if OfSeeker(seekerId, a) then multiset(apps)[a] else 0
  {
    Filter(apps, SeekerWhere(seekerId))
  }

  /** The `count` of the seeker listing is the number of matching applications. */
  lemma SeekerApplicationsCount(apps: seq<Application>, seekerId: string)
    ensures |SeekerApplications(apps, seekerId)| == Count(apps, SeekerWhere(seekerId))
  {
    FilterCount(apps, SeekerWhere(seekerId));
  }

  /** The seeker's applications in the order the query returns them:
      latest application date first. */
  function SeekerApplicationsInOrder(apps: seq<Application>, seekerId: string): (r: seq<Application>)
    ensures SortedDesc(r, ApplicationDate)
    ensures multiset(r) == multiset(SeekerApplications(apps, seekerId))
    ensures forall i :: 0 <= i < |r| ==> r[i] in apps && OfSeeker(seekerId, r[i])
  {
    var r := SortDesc(SeekerApplications(apps, seekerId), ApplicationDate);
    assert forall i :: 0 <= i < |r| ==> r[i] in SeekerApplications(apps, seekerId);
    r
  }

  /** One page of the seeker's applications, latest first, each with its
      job when there is one; `total` counts every match. */
  function SeekerPage(apps: seq<Application>, jobs: seq<Job>, page: int, pageSize: int, seekerId: string)
    : (p: Page<SeekerApplicationRow>)
    requires Offset(page, pageSize) >= 0 && pageSize > 0
    ensures var w := Window(SeekerApplicationsInOrder(apps, seekerId), Offset(page, pageSize), pageSize);
      && p.total == |SeekerApplications(apps, seekerId)|
      && p.currentPage == page
      && p.totalPages == CeilDiv(p.total, pageSize)
      && |p.rows| == |w| <= pageSize
      && (forall i :: 0 <= i < |p.rows| ==> p.rows[i] == SeekerRow(jobs, w[i]))
      && (forall i :: 0 <= i < |p.rows| ==> p.rows[i].application in apps && OfSeeker(seekerId, p.rows[i].application))
      && (forall i, j :: 0 <= i < j < |p.rows| ==> p.rows[i].application.applicationDate >= p.rows[j].application.applicationDate)
  {
    var ordered := SeekerApplicationsInOrder(apps, seekerId);
    var window := Window(ordered, Offset(page, pageSize), pageSize);
    var total := |SeekerApplications(apps, seekerId)|;
    WindowSorted(ordered, ApplicationDate, Offset(page, pageSize), pageSize);
    var rows := seq(|window|, i requires 0 <= i < |window| => SeekerRow(jobs, window[i]));
    Page(rows, total, page, CeilDiv(total, pageSize))
  }

  /** `getPaginatedApplications`: page `page` of the seeker's applications
      with `pageSize` rows per page; a negative offset or limit is an error. */
  function GetPaginatedApplications(apps: seq<Application>, jobs: seq<Job>, page: int, pageSize: int, seekerId: string)
    : (r: Result<Page<SeekerApplicationRow>>)
    requires pageSize != 0
    ensures r.Ok? <==> Offset(page, pageSize) >= 0 && pageSize > 0
    ensures r.Err? ==> r.failure.OtherError?
    ensures r.Ok? ==> r.value == SeekerPage(apps, jobs, page, pageSize, seekerId)
  {
    match Paginate(SeekerApplicationsInOrder(apps, seekerId), Offset(page, pageSize), pageSize)
    case Err(f) => Err(f)
    case Ok(_) => Ok(SeekerPage(apps, jobs, page, pageSize, seekerId))
  }

  /** A row of a recruiter's listing: the job is an INNER JOIN. */
  datatype RecruiterApplicationRow = RecruiterApplicationRow(application: Application, job: JobSummary)

  /** The WHERE clauses of the recruiter listing: the application's job
      exists and belongs to the recruiter, and when a status is given the
      application has it. */
  predicate OfRecruiter(jobs: seq<Job>, recruiterId: string, status: Option<ApplicationStatus>, a: Application)
  {
    JobById(jobs, a.jobId).Some? && JobById(jobs, a.jobId).value.recruiterId == recruiterId
    && (status.Some? ==> a.status == status.value)
  }

  function RecruiterWhere(jobs: seq<Job>, recruiterId: string, status: Option<ApplicationStatus>): Application -> bool
  {
    a => OfRecruiter(jobs, recruiterId, status, a)
  }

  /** The rows the recruiter listing selects: each application to one of
      the recruiter's jobs (with the status, when one is given) as often as
      the table holds it, and no other. */
  function RecruiterApplications(apps: seq<Application>, jobs: seq<Job>, recruiterId: string, status: Option<ApplicationStatus>)
    : (r: seq<Application>)
    ensures forall i :: 0 <= i < |r| ==> r[i] in apps && OfRecruiter(jobs, recruiterId, status, r[i])
    ensures forall i :: 0 <= i < |apps| && OfRecruiter(jobs, recruiterId, status, apps[i]) ==> apps[i] in r
    ensures forall a :: multiset(r)[a] == if OfRecruiter(jobs, recruiterId, status, a) then multiset(apps)[a] else 0
  {
    Filter(apps, RecruiterWhere(jobs, recruiterId, status))
  }

  /** The `count` of the recruiter listing is the number of matching applications. */
  lemma RecruiterApplicationsCount(apps: seq<Application>, jobs: seq<Job>, recruiterId: string, status: Option<ApplicationStatus>)
    ensures |RecruiterApplications(apps, jobs, recruiterId, status)| == Count(apps, RecruiterWhere(jobs, recruiterId, status))
  {
    FilterCount(apps, RecruiterWhere(jobs, recruiterId, status));
  }

  function RecruiterApplicationsInOrder(apps: seq<Application>, jobs: seq<Job>, recruiterId: string, status: Option<ApplicationStatus>)
    : (r: seq<Application>)
    ensures SortedDesc(r, ApplicationDate)
    ensures multiset(r) == multiset(RecruiterApplications(apps, jobs, recruiterId, status))
    ensures forall i :: 0 <= i < |r| ==> r[i] in apps && OfRecruiter(jobs, recruiterId, status, r[i])
  {
    var r := SortDesc(RecruiterApplications(apps, jobs, recruiterId, status), ApplicationDate);
    assert forall i :: 0 <= i < |r| ==> r[i] in RecruiterApplications(apps, jobs, recruiterId, status);
    r
  }

  function RecruiterRow(jobs: seq<Job>, a: Application): RecruiterApplicationRow
    requires JobById(jobs, a.jobId).Some?
  {
    RecruiterApplicationRow(a, Summary(JobById(jobs, a.jobId).value))
  }

  /** The status filter arrives as text. A non-empty value outside the
      enumeration makes PostgreSQL reject the query; an absent or empty
      one adds no condition. */
  function StatusFilter(status: Option<string>): (r: Result<Option<ApplicationStatus>>)
    ensures r.Ok? <==> status.None? || status.value == "" || status.value in APPLICATION_STATUS_VALUES
    ensures r.Ok? && r.value.Some? ==> status == Some(ApplicationStatusValue(r.value.value))
    ensures r.Ok? && r.value.None? ==> status.None? || status.value == ""
  {
    if status.None? || status.value == "" then Ok(None)
    else match ParseApplicationStatus(status.value)
      case Some(t) => Ok(Some(t))
      case None => Err(OtherError("SequelizeDatabaseError",
                     "invalid input value for enum enum_applications_status: \"" + status.value + "\""))
  }

  /** One page of the applications to the recruiter's jobs, latest first,
      each with its job; `total` counts every match. */
  function RecruiterPage(apps: seq<Application>, jobs: seq<Job>, recruiterId: string, page: int, pageSize: int,
                         filter: Option<ApplicationStatus>)
    : (p: Page<RecruiterApplicationRow>)
    requires Offset(page, pageSize) >= 0 && pageSize > 0
    ensures var w := Window(RecruiterApplicationsInOrder(apps, jobs, recruiterId, filter), Offset(page, pageSize), pageSize);
      && p.total == |RecruiterApplications(apps, jobs, recruiterId, filter)|
      && p.currentPage == page
      && p.totalPages == CeilDiv(p.total, pageSize)
      && |p.rows| == |w| <= pageSize
      && (forall i :: 0 <= i < |p.rows| ==> OfRecruiter(jobs, recruiterId, filter, w[i]) && p.rows[i] == RecruiterRow(jobs, w[i]))
      && (forall i :: 0 <= i < |p.rows| ==> p.rows[i].application in apps)
      && (forall i, j :: 0 <= i < j < |p.rows| ==> p.rows[i].application.applicationDate >= p.rows[j].application.applicationDate)
  {
    var ordered := RecruiterApplicationsInOrder(apps, jobs, recruiterId, filter);
    var window := Window(ordered, Offset(page, pageSize), pageSize);
    var total := |RecruiterApplications(apps, jobs, recruiterId, filter)|;
    WindowSorted(ordered, ApplicationDate, Offset(page, pageSize), pageSize);
    RecruiterWindow(apps, jobs, recruiterId, filter, Offset(page, pageSize), pageSize);
    var rows := seq(|window|, i requires 0 <= i < |window| => RecruiterRow(jobs, window[i]));
    Page(rows, total, page, CeilDiv(total, pageSize))
  }

  /** `getPaginatedApplicationsByRecruiter`: page `page` of the
      applications to the recruiter's jobs. A status outside the
      enumeration, or a negative offset or limit, is an error. */
  function GetPaginatedApplicationsByRecruiter(
    apps: seq<Application>, jobs: seq<Job>, recruiterId: string, page: int, pageSize: int, status: Option<string>)
    : (r: Result<Page<RecruiterApplicationRow>>)
    requires pageSize != 0
    ensures r.Ok? <==> StatusFilter(status).Ok? && Offset(page, pageSize) >= 0 && pageSize > 0
    ensures r.Err? ==> r.failure.OtherError?
    ensures r.Ok? ==> r.value == RecruiterPage(apps, jobs, recruiterId, page, pageSize, StatusFilter(status).value)
  {
    match StatusFilter(status)
    case Err(f) => Err(f)
    case Ok(filter) =>
      match Paginate(RecruiterApplicationsInOrder(apps, jobs, recruiterId, filter), Offset(page, pageSize), pageSize)
      case Err(f) => Err(f)
      case Ok(_) => Ok(RecruiterPage(apps, jobs, recruiterId, page, pageSize, filter))
  }

  lemma RecruiterWindow(apps: seq<Application>, jobs: seq<Job>, recruiterId: string, filter: Option<ApplicationStatus>, offset: nat, limit: nat)
    ensures var w := Window(RecruiterApplicationsInOrder(apps, jobs, recruiterId, filter), offset, limit);
      forall i :: 0 <= i < |w| ==> w[i] in apps && OfRecruiter(jobs, recruiterId, filter, w[i])
  {
    var ordered := RecruiterApplicationsInOrder(apps, jobs, recruiterId, filter);
    var w := Window(ordered, offset, limit);
    forall i | 0 <= i < |w| ensures w[i] in apps && OfRecruiter(jobs, recruiterId, filter, w[i]) {
      assert w[i] == ordered[offset + i];
    }
  }

  /** An application together with the job attributes the lookup includes. */
  datatype ApplicationDetail = ApplicationDetail(application: Application, job: JobSummary, jobRecruiterId: string)

  /** `getApplicationById`: null when there is no such application, and
      also when its job is missing (the job include is required). */
  function GetApplicationById(apps: seq<Application>, jobs: seq<Job>, id: string): (r: Option<ApplicationDetail>)
    ensures r.None? <==> (ApplicationIndex(apps, id).None?
      || JobById(jobs, apps[ApplicationIndex(apps, id).value].jobId).None?)
    ensures r.Some? ==>
      var a := apps[ApplicationIndex(apps, id).value];
      var j := JobById(jobs, a.jobId).value;
      r.value == ApplicationDetail(a, Summary(j), j.recruiterId) && a.id == id
  {
    match ApplicationIndex(apps, id)
    case None => None
    case Some(k) =>
      match JobById(jobs, apps[k].jobId)
      case None => None
      case Some(j) => Some(ApplicationDetail(apps[k], Summary(j), j.recruiterId))
  }

  // ---------------------------------------------------------- rejection

  /** `UPDATE applications SET status = 'Rejected' WHERE jobId = jobId`. */
  function RejectAll(apps: seq<Application>, jobId: string): (r: seq<Application>)
    ensures |r| == |apps|
    ensures forall i :: 0 <= i < |r| ==> r[i].status == (if apps[i].jobId == jobId then Rejected else apps[i].status)
    ensures forall i :: 0 <= i < |r| ==> r[i] == apps[i].(status := r[i].status)
  {
    seq(|apps|, i requires 0 <= i < |apps| => if apps[i].jobId == jobId then apps[i].(status := Rejected) else apps[i])
  }

  /** Rejecting twice is rejecting once. */
  lemma RejectAllIdempotent(apps: seq<Application>, jobId: string)
    ensures RejectAll(RejectAll(apps, jobId), jobId) == RejectAll(apps, jobId)
  {
  }

  /** Rejection changes no key or reference, so the table stays valid, and
      no pair of seeker and job is duplicated by it. */
  lemma RejectAllKeepsInvariants(apps: seq<Application>, jobs: seq<Job>, seekers: seq<Seeker>, jobId: string)
    ensures ApplicationsValid(apps, jobs, seekers) ==> ApplicationsValid(RejectAll(apps, jobId), jobs, seekers)
    ensures NoDuplicateApplications(apps) ==> NoDuplicateApplications(RejectAll(apps, jobId))
  {
    var r := RejectAll(apps, jobId);
    if ApplicationsValid(apps, jobs, seekers) {
      assert forall i, j :: 0 <= i < j < |r| ==> ApplicationKey(r[i]) != ApplicationKey(r[j]) by {
        forall i, j | 0 <= i < j < |r| ensures ApplicationKey(r[i]) != ApplicationKey(r[j]) {
          assert ApplicationKey(apps[i]) != ApplicationKey(apps[j]);
        }
      }
    }
  }

  /** `rejectApplicationsByJobId`. */
  method RejectApplicationsByJobId(db: Database, jobId: string)
    requires db.Valid()
    modifies db`applications
    ensures db.Valid()
    ensures db.applications == RejectAll(old(db.applications), jobId)
  {
    RejectAllKeepsInvariants(db.applications, db.jobs, db.seekers, jobId);
    db.applications := RejectAll(db.applications, jobId);
  }
}
