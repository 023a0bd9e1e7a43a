/** The three enumerations shared by the backend and the frontend (both
    declare the same string values), their string values and parsing back
    from an untyped string. Membership in the value list is the only
    validation a status update performs. */
module Enums {
  import opened Wrappers

  datatype JobType = FullTime | PartTime | Contract | Internship

  datatype JobStatus = Draft | Active | Expired | Filled

  datatype ApplicationStatus = Applied | Reviewed | Interviewing | Rejected | Hired | Withdrawn

  const JOB_TYPE_VALUES: seq<string> := ["full-time", "part-time", "contract", "internship"]
  const JOB_STATUS_VALUES: seq<string> := ["draft", "active", "expired", "filled"]
  const APPLICATION_STATUS_VALUES: seq<string> :=
    ["Applied", "Reviewed", "Interviewing", "Rejected", "Hired", "Withdrawn"]

  function JobTypeValue(t: JobType): (s: string)
    ensures s in JOB_TYPE_VALUES
  {
    match t
    case FullTime => "full-time"
    case PartTime => "part-time"
    case Contract => "contract"
    case Internship => "internship"
  }

  function JobStatusValue(t: JobStatus): (s: string)
    ensures s in JOB_STATUS_VALUES
  {
    match t
    case Draft => "draft"
    case Active => "active"
    case Expired => "expired"
    case Filled => "filled"
  }

  function ApplicationStatusValue(t: ApplicationStatus): (s: string)
    ensures s in APPLICATION_STATUS_VALUES
  {
    match t
    case Applied => "Applied"
    case Reviewed => "Reviewed"
    case Interviewing => "Interviewing"
    case Rejected => "Rejected"
    case Hired => "Hired"
    case Withdrawn => "Withdrawn"
  }

  /** `Object.values(JobType).includes(s)`, returning the member. */
  function ParseJobType(s: string): (r: Option<JobType>)
    ensures r.Some? <==> s in JOB_TYPE_VALUES
    ensures r.Some? ==> JobTypeValue(r.value) == s
  {
    if s == "full-time" then Some(FullTime)
    else if s == "part-time" then Some(PartTime)
    else if s == "contract" then Some(Contract)
    else if s == "internship" then Some(Internship)
    else None
  }

  function ParseJobStatus(s: string): (r: Option<JobStatus>)
    ensures r.Some? <==> s in JOB_STATUS_VALUES
    ensures r.Some? ==> JobStatusValue(r.value) == s
  {
    if s == "draft" then Some(Draft)
    else if s == "active" then Some(Active)
    else if s == "expired" then Some(Expired)
    else if s == "filled" then Some(Filled)
    else None
  }

  function ParseApplicationStatus(s: string): (r: Option<ApplicationStatus>)
    ensures r.Some? <==> s in APPLICATION_STATUS_VALUES
    ensures r.Some? ==> ApplicationStatusValue(r.value) == s
  {
    if s == "Applied" then Some(Applied)
    else if s == "Reviewed" then Some(Reviewed)
    else if s == "Interviewing" then Some(Interviewing)
    else if s == "Rejected" then Some(Rejected)
    else if s == "Hired" then Some(Hired)
    else if s == "Withdrawn" then Some(Withdrawn)
    else None
  }

  /** Each enumeration has exactly as many members as listed values, and
      each value names one member: parsing a member's value gives it back. */
  lemma EnumRoundTrips(t: JobType, u: JobStatus, a: ApplicationStatus)
    ensures ParseJobType(JobTypeValue(t)) == Some(t)
    ensures ParseJobStatus(JobStatusValue(u)) == Some(u)
    ensures ParseApplicationStatus(ApplicationStatusValue(a)) == Some(a)
  {
  }

  /** The value lists hold no duplicates, so the enumerations have exactly
      four, four and six members. */
  lemma EnumValuesDistinct()
    ensures forall i, j :: 0 <= i < j < |JOB_TYPE_VALUES| ==> JOB_TYPE_VALUES[i] != JOB_TYPE_VALUES[j]
    ensures forall i, j :: 0 <= i < j < |JOB_STATUS_VALUES| ==> JOB_STATUS_VALUES[i] != JOB_STATUS_VALUES[j]
    ensures forall i, j :: 0 <= i < j < |APPLICATION_STATUS_VALUES| ==>
      APPLICATION_STATUS_VALUES[i] != APPLICATION_STATUS_VALUES[j]
  {
  }
}
