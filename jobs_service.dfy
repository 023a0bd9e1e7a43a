/** The job service: creating a job from a request body, status updates
    validated against the enumeration, the listing of active jobs with
    optional text, location and type filters, and the lookup by id. */
module JobsService {
  import opened Wrappers
  import opened Seqs
  import opened Strings
  import opened Errors
  import opened Enums
  import opened Schema
  import opened Store
  import opened Requests

  /** `createJob`: the row built from the attributes is inserted and
      returned; a refusal by Sequelize or the database is the error. */
  method CreateJob(db: Database, attrs: JobInput, newId: string, now: int) returns (r: Result<Job>)
    requires db.Valid()
    modifies db`jobs
    ensures db.Valid()
    ensures r.Ok? <==> NewJob(attrs, newId, now).Written? && InsertJob(old(db.jobs), NewJob(attrs, newId, now).row).Written?
    ensures r.Ok? ==> JobStoredFrom(attrs, newId, now, r.value) && db.jobs == old(db.jobs) + [r.value]
    ensures r.Ok? ==> r.value == NewJob(attrs, newId, now).row
    ensures r.Err? ==> r.failure.OtherError? && db.jobs == old(db.jobs)
  {
    var built := NewJob(attrs, newId, now);
    if built.Refused? {
      return Err(DbFailure(built.error));
    }
    var written := InsertJob(db.jobs, built.row);
    if written.Refused? {
      return Err(DbFailure(written.error));
    }
    HasKeyAppend(db.jobs, built.row, JobKey);
    ApplicationReferencesKept(db.applications, db.jobs, written.row, db.seekers, db.seekers);
    db.jobs := written.row;
    return Ok(built.row);
  }

  function JobIndex(jobs: seq<Job>, id: string): (r: Option<nat>)
    ensures r.Some? ==> r.value < |jobs| && jobs[r.value].id == id
    ensures r.None? <==> !HasJob(jobs, id)
  {
    FindIndex(jobs, (j: Job) => j.id == id)
  }

  /** `updateJobStatus`: "Job not found" for an unknown id, then "Invalid
      job status" for a value outside the enumeration (any member is
      accepted whatever the current status); otherwise only that job's
      status changes. */
  method UpdateJobStatus(db: Database, jobId: string, status: Field<string>) returns (r: Result<Job>)
    requires db.Valid()
    modifies db`jobs
    ensures db.Valid()
    ensures JobIndex(old(db.jobs), jobId).None? ==> r == Err(PlainError("Job not found")) && db.jobs == old(db.jobs)
    ensures JobIndex(old(db.jobs), jobId).Some? && !(status.Given? && status.value in JOB_STATUS_VALUES) ==>
      r == Err(PlainError("Invalid job status: " + FieldText(status))) && db.jobs == old(db.jobs)
    ensures r.Ok? <==> JobIndex(old(db.jobs), jobId).Some? && status.Given? && status.value in JOB_STATUS_VALUES
    ensures r.Ok? ==>
      var k := JobIndex(old(db.jobs), jobId).value;
      JobStatusValue(r.value.status) == status.value
      && r.value == old(db.jobs)[k].(status := r.value.status)
      && db.jobs == old(db.jobs)[k := r.value]
  {
    var found := JobIndex(db.jobs, jobId);
    if found.None? {
      return Err(PlainError("Job not found"));
    }
    var parsed := if status.Given? then ParseJobStatus(status.value) else None;
    if parsed.None? {
      return Err(PlainError("Invalid job status: " + FieldText(status)));
    }
    var k := found.value;
    var updated := db.jobs[k].(status := parsed.value);
    KeysDistinctUpdate(db.jobs, k, updated, JobKey);
    HasKeyUpdate(db.jobs, k, updated, JobKey);
    ApplicationReferencesKept(db.applications, db.jobs, db.jobs[k := updated], db.seekers, db.seekers);
    db.jobs := db.jobs[k := updated];
    return Ok(updated);
  }

  /** `getJobById`. */
  function GetJobById(jobs: seq<Job>, jobId: string): (r: Result<Job>)
    ensures r.Ok? <==> HasJob(jobs, jobId)
    ensures r.Ok? ==> r.value in jobs && r.value.id == jobId
    ensures r.Err? ==> r.failure == PlainError("Job not found")
  {
    match JobIndex(jobs, jobId)
    case None => Err(PlainError("Job not found"))
    case Some(k) => Ok(jobs[k])
  }

  // ------------------------------------------------------------ listing

  /** The conditions the listing's `where` object collects: each filter
      is present only when its argument is a non-empty string. */
  datatype JobWhere = JobWhere(search: Option<string>, location: Option<string>, jobType: Option<JobType>)

  /** Building the `where` object. A jobType outside the enumeration makes
      PostgreSQL reject the comparison with the ENUM column. */
  function BuildWhere(search: Option<string>, location: Option<string>, jobType: Option<string>): (r: Result<JobWhere>)
    ensures r.Ok? <==> Truthy(jobType).None? || jobType.value in JOB_TYPE_VALUES
    ensures r.Ok? ==> r.value.search == Truthy(search) && r.value.location == Truthy(location)
    ensures r.Ok? ==> (r.value.jobType.None? <==> Truthy(jobType).None?)
    ensures r.Ok? && r.value.jobType.Some? ==> jobType == Some(JobTypeValue(r.value.jobType.value))
  {
    match Truthy(jobType)
    case None => Ok(JobWhere(Truthy(search), Truthy(location), None))
    case Some(t) =>
      match ParseJobType(t)
      case Some(v) => Ok(JobWhere(Truthy(search), Truthy(location), Some(v)))
      case None => Err(OtherError("SequelizeDatabaseError", "invalid input value for enum enum_jobs_job_type: \"" + t + "\""))
  }

  /** The WHERE clause: every present condition holds (`ILIKE '%s%'` for
      the texts, equality for the type), and the job is active. */
  predicate Satisfies(j: Job, w: JobWhere)
  {
    (w.search.Some? ==> ContainsIgnoringCase(j.title, w.search.value) || ContainsIgnoringCase(j.descriptionMarkdown, w.search.value))
    && (w.location.Some? ==> ContainsIgnoringCase(j.location, w.location.value))
    && (w.jobType.Some? ==> j.jobType == w.jobType.value)
    && j.status == Active
  }

  /** The attributes a listing returns: all but descriptionMarkdown. */
  datatype JobListing = JobListing(
    id: string, recruiterId: string, title: string, location: string, jobType: JobType,
    salaryMin: Option<int>, salaryMax: Option<int>, salaryCurrency: Option<string>,
    applyUrl: string, status: JobStatus, postedAt: Option<int>, expiresAt: Option<int>,
    easyApply: bool, createdAt: int)

  function Listing(j: Job): JobListing
  {
    JobListing(j.id, j.recruiterId, j.title, j.location, j.jobType, j.salaryMin, j.salaryMax,
               j.salaryCurrency, j.applyUrl, j.status, j.postedAt, j.expiresAt, j.easyApply, j.createdAt)
  }

  function CreatedAt(j: Job): int { j.createdAt }

  /** The WHERE clause as a predicate on rows. */
  function Where(w: JobWhere): Job -> bool
  {
    j => Satisfies(j, w)
  }

  /** The rows the WHERE clause selects: each matching job as often as the
      table holds it, and no other. */
  function MatchingJobs(jobs: seq<Job>, w: JobWhere): (r: seq<Job>)
    ensures forall i :: 0 <= i < |r| ==> r[i] in jobs && Satisfies(r[i], w)
    ensures forall i :: 0 <= i < |jobs| && Satisfies(jobs[i], w) ==> jobs[i] in r
    ensures forall j :: multiset(r)[j] == if Satisfies(j, w) then multiset(jobs)[j] else 0
  {
    Filter(jobs, Where(w))
  }

  /** The `count` of the listing is the number of jobs that match. */
  lemma MatchingJobsCount(jobs: seq<Job>, w: JobWhere)
    ensures |MatchingJobs(jobs, w)| == Count(jobs, Where(w))
  {
    FilterCount(jobs, Where(w));
  }

  /** The matching jobs, newest first. */
  function MatchingJobsInOrder(jobs: seq<Job>, w: JobWhere): (r: seq<Job>)
    ensures SortedDesc(r, CreatedAt)
    ensures multiset(r) == multiset(MatchingJobs(jobs, w))
    ensures forall i :: 0 <= i < |r| ==> r[i] in jobs && Satisfies(r[i], w)
  {
    var r := SortDesc(MatchingJobs(jobs, w), CreatedAt);
    assert forall i :: 0 <= i < |r| ==> r[i] in MatchingJobs(jobs, w);
    r
  }

  lemma JobWindow(jobs: seq<Job>, w: JobWhere, offset: nat, limit: nat)
    ensures var win := Window(MatchingJobsInOrder(jobs, w), offset, limit);
      forall i :: 0 <= i < |win| ==> win[i] in jobs && Satisfies(win[i], w)
  {
    var ordered := MatchingJobsInOrder(jobs, w);
    var win := Window(ordered, offset, limit);
    forall i | 0 <= i < |win| ensures win[i] in jobs && Satisfies(win[i], w) {
      assert win[i] == ordered[offset + i];
    }
  }

  /** One page of the matching jobs, newest first and without their
      descriptions; `total` counts every match. */
  function JobPage(jobs: seq<Job>, w: JobWhere, page: int, pageSize: int): (p: Page<JobListing>)
    requires Offset(page, pageSize) >= 0 && pageSize > 0
    ensures var win := Window(MatchingJobsInOrder(jobs, w), Offset(page, pageSize), pageSize);
      && p.total == |MatchingJobs(jobs, w)|
      && p.currentPage == page
      && p.totalPages == CeilDiv(p.total, pageSize)
      && |p.rows| == |win| <= pageSize
      && (forall i :: 0 <= i < |p.rows| ==> p.rows[i] == Listing(win[i]) && win[i] in jobs && Satisfies(win[i], w))
      && (forall i, j :: 0 <= i < j < |p.rows| ==> p.rows[i].createdAt >= p.rows[j].createdAt)
  {
    var ordered := MatchingJobsInOrder(jobs, w);
    var window := Window(ordered, Offset(page, pageSize), pageSize);
    var total := |MatchingJobs(jobs, w)|;
    WindowSorted(ordered, CreatedAt, Offset(page, pageSize), pageSize);
    JobWindow(jobs, w, Offset(page, pageSize), pageSize);
    var rows := seq(|window|, i requires 0 <= i < |window| => Listing(window[i]));
    Page(rows, total, page, CeilDiv(total, pageSize))
  }

  /** `getPaginatedJobs`: page `page` of the active jobs that pass every
      given filter. A bad filter or a negative offset or limit is an error. */
  function GetPaginatedJobs(jobs: seq<Job>, page: int, pageSize: int,
                            search: Option<string>, location: Option<string>, jobType: Option<string>)
    : (r: Result<Page<JobListing>>)
    requires pageSize != 0
    ensures r.Ok? <==> BuildWhere(search, location, jobType).Ok? && Offset(page, pageSize) >= 0 && pageSize > 0
    ensures r.Err? ==> r.failure.OtherError?
    ensures r.Ok? ==> r.value == JobPage(jobs, BuildWhere(search, location, jobType).value, page, pageSize)
  {
    match BuildWhere(search, location, jobType)
    case Err(f) => Err(f)
    case Ok(w) =>
      match Paginate(MatchingJobsInOrder(jobs, w), Offset(page, pageSize), pageSize)
      case Err(f) => Err(f)
      case Ok(_) => Ok(JobPage(jobs, w, page, pageSize))
  }

  /** Whatever the filters, no listed job is anything but active. */
  lemma ListingOnlyActive(jobs: seq<Job>, page: int, pageSize: int,
                          search: Option<string>, location: Option<string>, jobType: Option<string>)
    requires pageSize != 0
    ensures var r := GetPaginatedJobs(jobs, page, pageSize, search, location, jobType);
      r.Ok? ==> forall i :: 0 <= i < |r.value.rows| ==> r.value.rows[i].status == Active
  {
  }
}
