/** The job routes. Every failure answers 500 with a fixed text, except
    the status update, which forwards the service's message. A response's
    `message` holds the text of the body's `message` or `error` key, and
    is empty when the body is the bare job. */
module JobsController {
  import opened Wrappers
  import opened Strings
  import opened Errors
  import opened Enums
  import opened Schema
  import opened Store
  import opened Requests
  import opened JobsService

  /** `createJob`: CREATED with the stored job, or 500 "Failed to create
      job" for any refusal, with no row added. */
  method CreateJobHandler(db: Database, body: JobInput, newId: string, now: int) returns (res: Response<Job>)
    requires db.Valid()
    modifies db`jobs
    ensures db.Valid()
    ensures res.status == CREATED || res == Response(INTERNAL_SERVER_ERROR, "Failed to create job", None)
    ensures res.status == CREATED <==>
      NewJob(body, newId, now).Written? && InsertJob(old(db.jobs), NewJob(body, newId, now).row).Written?
    ensures res.status == CREATED ==> res.data == Some(NewJob(body, newId, now).row)
    ensures res.status == CREATED ==> (
      && res.data.Some? && JobStoredFrom(body, newId, now, res.data.value)
      && db.jobs == old(db.jobs) + [res.data.value])
    ensures res.status != CREATED ==> db.jobs == old(db.jobs)
  {
    var r := CreateJob(db, body, newId, now);
    if r.Err? {
      return Response(INTERNAL_SERVER_ERROR, "Failed to create job", None);
    }
    return Response(CREATED, "", Some(r.value));
  }

  /** The checks of `updateJobStatus` before the service call: a falsy
      status, then one outside the enumeration. */
  function StatusCheck(status: Field<string>): (r: Option<Response<Job>>)
    ensures r.None? <==> status.Given? && status.value in JOB_STATUS_VALUES
    ensures !status.Given? || status.value == "" ==> r == Some(Response(BAD_REQUEST, "Status is required", None))
    ensures status.Given? && status.value != "" && status.value !in JOB_STATUS_VALUES ==>
      r == Some(Response(BAD_REQUEST, "Invalid status value", None))
  {
    if !status.Given? || status.value == "" then Some(Response(BAD_REQUEST, "Status is required", None))
    else if status.value !in JOB_STATUS_VALUES then Some(Response(BAD_REQUEST, "Invalid status value", None))
    else None
  }

  /** `updateJobStatus`: a 400 from the checks changes nothing; a
      missing job is a 500 carrying the service's "Job not found"; on
      success only that job's status changes. */
  method UpdateJobStatusHandler(db: Database, jobId: string, status: Field<string>) returns (res: Response<Job>)
    requires db.Valid()
    modifies db`jobs
    ensures db.Valid()
    ensures StatusCheck(status).Some? ==> res == StatusCheck(status).value && db.jobs == old(db.jobs)
    ensures StatusCheck(status).None? && JobIndex(old(db.jobs), jobId).None? ==>
      res == Response(INTERNAL_SERVER_ERROR, "Job not found", None) && db.jobs == old(db.jobs)
    ensures res.status == OK <==> StatusCheck(status).None? && JobIndex(old(db.jobs), jobId).Some?
    ensures res.status == OK ==>
      var k := JobIndex(old(db.jobs), jobId).value;
      && res.data.Some? && JobStatusValue(res.data.value.status) == status.value
      && db.jobs == old(db.jobs)[k := old(db.jobs)[k].(status := res.data.value.status)]
    ensures res.status != OK ==> db.jobs == old(db.jobs)
  {
    var check := StatusCheck(status);
    if check.Some? {
      return check.value;
    }
    var r := UpdateJobStatus(db, jobId, status);
    if r.Err? {
      return Response(INTERNAL_SERVER_ERROR, if r.failure.message != "" then r.failure.message else "Failed to update job status", None);
    }
    return Response(OK, "", Some(r.value));
  }

  /** `getPaginatedJobs`: page and pageSize are `parseInt(q, 10)` with
      the defaults 1 and 10. The `status` query parameter is passed where
      the service expects the location, and neither the `location` nor
      the `jobType` parameter is forwarded. */
  function GetPaginatedJobsHandler(jobs: seq<Job>, page: Option<string>, pageSize: Option<string>,
                                   search: Option<string>, status: Option<string>,
                                   location: Option<string>, jobType: Option<string>)
    : (res: Response<Page<JobListing>>)
    ensures res.status == OK || res == Response(INTERNAL_SERVER_ERROR, "Failed to get paginated jobs", None)
    ensures res.status == OK <==> (
      var p := ParseIntOr(page, 1);
      var ps := ParseIntOr(pageSize, 10);
      Offset(p, ps) >= 0 && ps > 0)
    ensures res.status == OK ==> (
      && res.data.Some? && res.message == "Paginated jobs retrieved successfully"
      && res.data.value.currentPage == ParseIntOr(page, 1)
      && |res.data.value.rows| <= ParseIntOr(pageSize, 10)
      && forall i :: 0 <= i < |res.data.value.rows| ==>
           var l := res.data.value.rows[i];
           && l.status == Active
           && (Truthy(status).Some? ==> ContainsIgnoringCase(l.location, status.value)))
    ensures res.status == OK ==>
      res.data == Some(JobPage(jobs, BuildWhere(search, status, None).value, ParseIntOr(page, 1), ParseIntOr(pageSize, 10)))
  {
    var p := ParseIntOr(page, 1);
    var ps := ParseIntOr(pageSize, 10);
    match GetPaginatedJobs(jobs, p, ps, search, status, None)
    case Err(_) => Response(INTERNAL_SERVER_ERROR, "Failed to get paginated jobs", None)
    case Ok(pg) => Response(OK, "Paginated jobs retrieved successfully", Some(pg))
  }

  /** The listing does not depend on the `location` and `jobType` query
      parameters at all. */
  lemma LocationAndTypeIgnored(jobs: seq<Job>, page: Option<string>, pageSize: Option<string>,
                               search: Option<string>, status: Option<string>,
                               location: Option<string>, jobType: Option<string>,
                               location': Option<string>, jobType': Option<string>)
    ensures GetPaginatedJobsHandler(jobs, page, pageSize, search, status, location, jobType)
         == GetPaginatedJobsHandler(jobs, page, pageSize, search, status, location', jobType')
  {
  }

  /** `getJobById`: the stored job, or 500 "Failed to get job by ID" for
      an unknown id; the 404 branch is never taken, because the service
      throws instead of returning nothing. */
  function GetJobByIdHandler(jobs: seq<Job>, jobId: string): (res: Response<Job>)
    ensures res.status != NOT_FOUND
    ensures res.status == OK <==> HasJob(jobs, jobId)
    ensures res.status == OK ==> (
      && res.message == "Job retrieved successfully"
      && res.data.Some? && res.data.value in jobs && res.data.value.id == jobId)
    ensures res.status != OK ==> res == Response(INTERNAL_SERVER_ERROR, "Failed to get job by ID", None)
  {
    match GetJobById(jobs, jobId)
    case Err(_) => Response(INTERNAL_SERVER_ERROR, "Failed to get job by ID", None)
    case Ok(job) => Response(OK, "Job retrieved successfully", Some(job))
  }
}
