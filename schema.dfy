/** Rows of the five tables as the Sequelize models declare them: column
    types, nullability, VARCHAR lengths, 32-bit INTEGER columns and
    defaults, plus the errors a write can fail with. Ids are opaque
    strings and dates are integer timestamps. */
module Schema {
  import opened Wrappers
  import opened Strings
  import opened Enums
  import opened Errors

  // ------------------------------------------------------------- errors

  /** Why the database (or Sequelize's validation before it) refuses a write. */
  datatype DbError =
    | NotNull(column: string)
    | NotUrl(column: string)
    | TooLong(column: string, max: nat)
    | OutOfRange(column: string, number: int)
    | InvalidEnum(column: string, text: string)
    | Duplicate(column: string)
    | MissingReference(column: string)

  function DbErrorName(e: DbError): string
  {
    match e
    case NotNull(_) => "SequelizeValidationError"
    case NotUrl(_) => "SequelizeValidationError"
    case Duplicate(_) => "SequelizeUniqueConstraintError"
    case MissingReference(_) => "SequelizeForeignKeyConstraintError"
    case _ => "SequelizeDatabaseError"
  }

  /** The message text; the driver's exact wording is approximated. */
  function DbErrorMessage(e: DbError): string
  {
    match e
    case NotNull(c) => "notNull Violation: " + c + " cannot be null"
    case NotUrl(c) => "Validation isUrl on " + c + " failed"
    case TooLong(_, n) => "value too long for type character varying(" + NatToString(n) + ")"
    case OutOfRange(_, v) => "value \"" + IntToString(v) + "\" is out of range for type integer"
    case InvalidEnum(c, v) => "invalid input value for enum " + c + ": \"" + v + "\""
    case Duplicate(_) => "Validation error"
    case MissingReference(c) => "insert or update violates foreign key constraint on " + c
  }

  function DbFailure(e: DbError): (f: Failure)
    ensures f.OtherError?
    ensures IsUniqueViolation(f) <==> e.Duplicate?
  {
    OtherError(DbErrorName(e), DbErrorMessage(e))
  }

  /** `error instanceof UniqueConstraintError`, equivalently
      `error.name === "SequelizeUniqueConstraintError"`. */
  predicate IsUniqueViolation(f: Failure)
  {
    f.OtherError? && f.name == "SequelizeUniqueConstraintError"
  }

  datatype DbResult<T> = Written(row: T) | Refused(error: DbError)
  {
    predicate IsFailure() { Refused? }
    function PropagateFailure<U>(): DbResult<U> requires Refused? { Refused(error) }
    function Extract(): T requires Written? { row }
  }

  // ------------------------------------------------------------ columns

  const INT32_MIN := -0x8000_0000
  const INT32_MAX := 0x7FFF_FFFF

  /** A value a PostgreSQL INTEGER column can hold. */
  predicate InInt32(i: int) { INT32_MIN <= i <= INT32_MAX }

  predicate FitsOpt(o: Option<string>, max: nat) { o.Some? ==> |o.value| <= max }

  predicate InInt32Opt(o: Option<int>) { o.Some? ==> InInt32(o.value) }

  /** An attribute as it arrives in a request body: not given, given as
      `null`, or given with a value. */
  datatype Field<T> = Absent | Null | Given(value: T)

  /** What a nullable column stores for an attribute: NULL when it is not
      given or given as null. */
  function Nullable<T>(f: Field<T>): Option<T>
  {
    if f.Given? then Some(f.value) else None
  }

  /** How a template literal prints the attribute: `undefined`, `null`,
      or the string itself. */
  function FieldText(f: Field<string>): string
  {
    match f
    case Absent => "undefined"
    case Null => "null"
    case Given(s) => s
  }

  /** A NOT NULL column under `update`: kept when not given, set when
      given, refused when given as null. */
  function SetColumn<T>(f: Field<T>, current: T, column: string): (r: DbResult<T>)
    ensures r.Written? <==> !f.Null?
    ensures r.Written? ==> r.row == (if f.Given? then f.value else current)
  {
    match f
    case Absent => Written(current)
    case Null => Refused(NotNull(column))
    case Given(v) => Written(v)
  }

  /** A nullable column under `update`: kept when not given, NULL when
      given as null. */
  function SetNullable<T>(f: Field<T>, current: Option<T>): (r: Option<T>)
    ensures f.Absent? ==> r == current
    ensures !f.Absent? ==> r == Nullable(f)
  {
    match f
    case Absent => current
    case Null => None
    case Given(v) => Some(v)
  }

  // ------------------------------------------------------------- users

  datatype User = User(
    id: string, firstName: string, lastName: string, email: string,
    phone: Option<string>, role: Option<string>)

  /** VARCHAR(36) id, VARCHAR(128) names, VARCHAR(255) email, VARCHAR(20)
      phone and role; role is a free string, not an enumeration. */
  predicate ValidUser(u: User)
  {
    |u.id| <= 36 && |u.firstName| <= 128 && |u.lastName| <= 128 && |u.email| <= 255
    && FitsOpt(u.phone, 20) && FitsOpt(u.role, 20)
  }

  /** The first column of `u` the database refuses, if any. */
  function UserError(u: User): (r: Option<DbError>)
    ensures r.None? <==> ValidUser(u)
    ensures r.Some? ==> r.value.TooLong?
  {
    if |u.id| > 36 then Some(TooLong("id", 36))
    else if |u.firstName| > 128 then Some(TooLong("firstName", 128))
    else if |u.lastName| > 128 then Some(TooLong("lastName", 128))
    else if |u.email| > 255 then Some(TooLong("email", 255))
    else if !FitsOpt(u.phone, 20) then Some(TooLong("phone", 20))
    else if !FitsOpt(u.role, 20) then Some(TooLong("role", 20))
    else None
  }

  /** `UserAttributes`: id, phone and role are optional. */
  datatype UserAttributes = UserAttributes(
    id: Option<string>, firstName: string, lastName: string, email: string,
    phone: Option<string>, role: Option<string>)

  /** The row `User.create` builds: a missing id is the generated `newId`. */
  function NewUser(a: UserAttributes, newId: string): (u: User)
    ensures u.id == a.id.GetOr(newId)
    ensures u.firstName == a.firstName && u.lastName == a.lastName && u.email == a.email
    ensures u.phone == a.phone && u.role == a.role
  {
    User(a.id.GetOr(newId), a.firstName, a.lastName, a.email, a.phone, a.role)
  }

  /** `Partial<UserAttributes>` of an update: each attribute may be left
      out, and phone and role may be set to null. */
  datatype UserPatch = UserPatch(
    firstName: Field<string>, lastName: Field<string>, email: Field<string>,
    phone: Field<string>, role: Field<string>)

  // ------------------------------------------------------------ seekers

  datatype Seeker = Seeker(
    id: string, userId: string, employmentStatus: Option<string>, resumeUrl: Option<string>)

  /** VARCHAR(36) ids, a free VARCHAR(50) employment status and a
      VARCHAR(500) resume URL. */
  predicate ValidSeeker(s: Seeker)
  {
    |s.id| <= 36 && |s.userId| <= 36 && FitsOpt(s.employmentStatus, 50) && FitsOpt(s.resumeUrl, 500)
  }

  function SeekerError(s: Seeker): (r: Option<DbError>)
    ensures r.None? <==> ValidSeeker(s)
    ensures r.Some? ==> r.value.TooLong?
  {
    if |s.id| > 36 then Some(TooLong("id", 36))
    else if |s.userId| > 36 then Some(TooLong("userId", 36))
    else if !FitsOpt(s.employmentStatus, 50) then Some(TooLong("employmentStatus", 50))
    else if !FitsOpt(s.resumeUrl, 500) then Some(TooLong("resumeUrl", 500))
    else None
  }

  datatype SeekerAttributes = SeekerAttributes(
    id: Option<string>, userId: string, employmentStatus: Option<string>, resumeUrl: Option<string>)

  function NewSeeker(a: SeekerAttributes, newId: string): (s: Seeker)
    ensures s.id == a.id.GetOr(newId) && s.userId == a.userId
    ensures s.employmentStatus == a.employmentStatus && s.resumeUrl == a.resumeUrl
  {
    Seeker(a.id.GetOr(newId), a.userId, a.employmentStatus, a.resumeUrl)
  }

  datatype SeekerPatch = SeekerPatch(
    userId: Field<string>, employmentStatus: Field<string>, resumeUrl: Field<string>)

  // --------------------------------------------------------- recruiters

  datatype Recruiter = Recruiter(
    id: string, userId: string, companyName: Option<string>, companyUrl: Option<string>)

  predicate ValidRecruiter(r: Recruiter)
  {
    |r.id| <= 36 && |r.userId| <= 36 && FitsOpt(r.companyName, 255) && FitsOpt(r.companyUrl, 500)
  }

  /** The first refused column. The `isUrl` validator runs in Sequelize
      before the row reaches the database, and skips NULL. */
  function RecruiterError(r: Recruiter, isUrl: string -> bool): (e: Option<DbError>)
    ensures e.None? <==> ValidRecruiter(r) && (r.companyUrl.Some? ==> isUrl(r.companyUrl.value))
  {
    if r.companyUrl.Some? && !isUrl(r.companyUrl.value) then Some(NotUrl("companyUrl"))
    else if |r.id| > 36 then Some(TooLong("id", 36))
    else if |r.userId| > 36 then Some(TooLong("userId", 36))
    else if !FitsOpt(r.companyName, 255) then Some(TooLong("companyName", 255))
    else if !FitsOpt(r.companyUrl, 500) then Some(TooLong("companyUrl", 500))
    else None
  }

  datatype RecruiterAttributes = RecruiterAttributes(
    id: Option<string>, userId: string, companyName: Option<string>, companyUrl: Option<string>)

  function NewRecruiter(a: RecruiterAttributes, newId: string): (r: Recruiter)
    ensures r.id == a.id.GetOr(newId) && r.userId == a.userId
    ensures r.companyName == a.companyName && r.companyUrl == a.companyUrl
  {
    Recruiter(a.id.GetOr(newId), a.userId, a.companyName, a.companyUrl)
  }

  datatype RecruiterPatch = RecruiterPatch(
    userId: Field<string>, companyName: Field<string>, companyUrl: Field<string>)

  // --------------------------------------------------------------- jobs

  datatype Job = Job(
    id: string, recruiterId: string, title: string, descriptionMarkdown: string,
    location: string, jobType: JobType, salaryMin: Option<int>, salaryMax: Option<int>,
    salaryCurrency: Option<string>, applyUrl: string, status: JobStatus,
    postedAt: Option<int>, expiresAt: Option<int>, easyApply: bool, createdAt: int)

  /** VARCHAR(255) title, location and apply URL, unbounded TEXT
      description, INTEGER salaries with no ordering between them, and a
      VARCHAR(3) currency. */
  predicate ValidJob(j: Job)
  {
    |j.id| <= 36 && |j.title| <= 255 && |j.location| <= 255 && |j.applyUrl| <= 255
    && InInt32Opt(j.salaryMin) && InInt32Opt(j.salaryMax) && FitsOpt(j.salaryCurrency, 3)
  }

  /** The attributes of `Job.create(req.body)`, untyped as a request body is. */
  datatype JobInput = JobInput(
    id: Field<string>, recruiterId: Field<string>, title: Field<string>,
    descriptionMarkdown: Field<string>, location: Field<string>, jobType: Field<string>,
    salaryMin: Field<int>, salaryMax: Field<int>, salaryCurrency: Field<string>,
    applyUrl: Field<string>, status: Field<string>, postedAt: Field<int>,
    expiresAt: Field<int>, easyApply: Field<bool>)

  /** A NOT NULL column without a default needs a value. */
  function Required<T>(f: Field<T>, column: string): (r: DbResult<T>)
    ensures r.Written? <==> f.Given?
    ensures r.Written? ==> r.row == f.value
  {
    if f.Given? then Written(f.value) else Refused(NotNull(column))
  }

  /** A NOT NULL column with a default: the default when not given, an
      error when given as null. */
  function Defaulted<T>(f: Field<T>, column: string, default: T): (r: DbResult<T>)
    ensures r.Written? <==> !f.Null?
    ensures r.Written? ==> r.row == (if f.Given? then f.value else default)
  {
    match f
    case Absent => Written(default)
    case Null => Refused(NotNull(column))
    case Given(v) => Written(v)
  }

  function CheckLength(s: string, column: string, max: nat): (r: DbResult<string>)
    ensures r.Written? <==> |s| <= max
    ensures r.Written? ==> r.row == s
  {
    if |s| <= max then Written(s) else Refused(TooLong(column, max))
  }

  function CheckLengthOpt(o: Option<string>, column: string, max: nat): (r: DbResult<Option<string>>)
    ensures r.Written? <==> FitsOpt(o, max)
    ensures r.Written? ==> r.row == o
  {
    if FitsOpt(o, max) then Written(o) else Refused(TooLong(column, max))
  }

  /** The row `Job.create` stores for `a`: an omitted id is `newId`, an
      omitted status is `draft`, an omitted easyApply is false, and
      createdAt is `now`. Sequelize's null checks on every NOT NULL
      column come first; the database's length, enumeration and INTEGER
      range checks after them. */
  function NewJob(a: JobInput, newId: string, now: int): (r: DbResult<Job>)
    ensures r.Written? ==> JobStoredFrom(a, newId, now, r.row) && ValidJob(r.row)
    ensures r.Refused? ==> forall j :: JobStoredFrom(a, newId, now, j) ==> !ValidJob(j)
  {
    var id :- Defaulted(a.id, "id", newId);
    var recruiterId :- Required(a.recruiterId, "recruiterId");
    var title :- Required(a.title, "title");
    var description :- Required(a.descriptionMarkdown, "descriptionMarkdown");
    var location :- Required(a.location, "location");
    var jobTypeText :- Required(a.jobType, "jobType");
    var applyUrl :- Required(a.applyUrl, "applyUrl");
    var statusText :- Defaulted(a.status, "status", "draft");
    var easyApply :- Defaulted(a.easyApply, "easyApply", false);
    var _ :- CheckLength(id, "id", 36);
    var _ :- CheckLength(title, "title", 255);
    var _ :- CheckLength(location, "location", 255);
    var jobType :- ParseEnum(ParseJobType(jobTypeText), "jobType", jobTypeText);
    var _ :- CheckInt(Nullable(a.salaryMin), "salaryMin");
    var _ :- CheckInt(Nullable(a.salaryMax), "salaryMax");
    var _ :- CheckLengthOpt(Nullable(a.salaryCurrency), "salaryCurrency", 3);
    var _ :- CheckLength(applyUrl, "applyUrl", 255);
    var status :- ParseEnum(ParseJobStatus(statusText), "status", statusText);
    Written(Job(id, recruiterId, title, description, location, jobType,
                Nullable(a.salaryMin), Nullable(a.salaryMax), Nullable(a.salaryCurrency),
                applyUrl, status, Nullable(a.postedAt), Nullable(a.expiresAt), easyApply, now))
  }

  function ParseEnum<T>(o: Option<T>, column: string, text: string): (r: DbResult<T>)
    ensures r.Written? <==> o.Some?
    ensures r.Written? ==> r.row == o.value
  {
    if o.Some? then Written(o.value) else Refused(InvalidEnum(column, text))
  }

  function CheckInt(o: Option<int>, column: string): (r: DbResult<Option<int>>)
    ensures r.Written? <==> InInt32Opt(o)
  {
    if InInt32Opt(o) then Written(o) else Refused(OutOfRange(column, o.value))
  }

  /** `j` is the row the attributes `a` describe. */
  predicate JobStoredFrom(a: JobInput, newId: string, now: int, j: Job)
  {
    (if a.id.Given? then a.id == Given(j.id) else a.id.Absent? && j.id == newId)
    && a.recruiterId == Given(j.recruiterId)
    && a.title == Given(j.title)
    && a.descriptionMarkdown == Given(j.descriptionMarkdown)
    && a.location == Given(j.location)
    && a.jobType == Given(JobTypeValue(j.jobType))
    && j.salaryMin == Nullable(a.salaryMin)
    && j.salaryMax == Nullable(a.salaryMax)
    && j.salaryCurrency == Nullable(a.salaryCurrency)
    && a.applyUrl == Given(j.applyUrl)
    && (if a.status.Given? then a.status == Given(JobStatusValue(j.status)) else a.status.Absent? && j.status == Draft)
    && j.postedAt == Nullable(a.postedAt)
    && j.expiresAt == Nullable(a.expiresAt)
    && (if a.easyApply.Given? then a.easyApply == Given(j.easyApply) else a.easyApply.Absent? && !j.easyApply)
    && j.createdAt == now
  }

  // ------------------------------------------------------- applications

  datatype Application = Application(
    id: string, jobId: string, seekerId: string, applicationDate: int, status: ApplicationStatus)

  predicate ValidApplication(a: Application)
  {
    |a.id| <= 36 && |a.jobId| <= 36 && |a.seekerId| <= 36
  }

  function ApplicationError(a: Application): (r: Option<DbError>)
    ensures r.None? <==> ValidApplication(a)
    ensures r.Some? ==> r.value.TooLong?
  {
    if |a.id| > 36 then Some(TooLong("id", 36))
    else if |a.jobId| > 36 then Some(TooLong("jobId", 36))
    else if |a.seekerId| > 36 then Some(TooLong("seekerId", 36))
    else None
  }

  /** `ApplicationAttributes`: id, applicationDate and status are optional. */
  datatype ApplicationAttributes = ApplicationAttributes(
    id: Option<string>, jobId: string, seekerId: string,
    applicationDate: Option<int>, status: Option<ApplicationStatus>)

  /** The row `Application.create` builds: the date defaults to `now` and
      the status to `Applied`. */
  function NewApplication(a: ApplicationAttributes, newId: string, now: int): (r: Application)
    ensures r.id == a.id.GetOr(newId) && r.jobId == a.jobId && r.seekerId == a.seekerId
    ensures r.applicationDate == a.applicationDate.GetOr(now)
    ensures r.status == a.status.GetOr(Applied)
  {
    Application(a.id.GetOr(newId), a.jobId, a.seekerId, a.applicationDate.GetOr(now), a.status.GetOr(Applied))
  }
}
