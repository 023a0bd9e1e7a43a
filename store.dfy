/** The database: one table per model, held by a single object whose
    tables the service operations replace. The table invariant is what
    the schema's primary keys, UNIQUE columns and foreign keys guarantee;
    every write below is refused when it would break it. */
module Store {
  import opened Wrappers
  import opened Seqs
  import opened Errors
  import opened Schema

  function UserKey(u: User): string { u.id }
  function UserEmail(u: User): string { u.email }
  function SeekerKey(s: Seeker): string { s.id }
  function SeekerUser(s: Seeker): string { s.userId }
  function RecruiterKey(r: Recruiter): string { r.id }
  function RecruiterUser(r: Recruiter): string { r.userId }
  function JobKey(j: Job): string { j.id }
  function ApplicationKey(a: Application): string { a.id }

  predicate HasUser(users: seq<User>, id: string) { HasKey(users, UserKey, id) }
  predicate HasSeeker(seekers: seq<Seeker>, id: string) { HasKey(seekers, SeekerKey, id) }
  predicate HasJob(jobs: seq<Job>, id: string) { HasKey(jobs, JobKey, id) }

  /** Primary key, UNIQUE email, column constraints. */
  predicate UsersValid(users: seq<User>)
  {
    KeysDistinct(users, UserKey) && KeysDistinct(users, UserEmail)
    && forall i :: 0 <= i < |users| ==> ValidUser(users[i])
  }

  /** Primary key, UNIQUE userId (one seeker profile per user), and userId
      references an existing user. */
  predicate SeekersValid(seekers: seq<Seeker>, users: seq<User>)
  {
    KeysDistinct(seekers, SeekerKey) && KeysDistinct(seekers, SeekerUser)
    && forall i :: 0 <= i < |seekers| ==> ValidSeeker(seekers[i]) && HasUser(users, seekers[i].userId)
  }

  /** Primary key, UNIQUE userId (one recruiter profile per user), and
      userId references an existing user. */
  predicate RecruitersValid(recruiters: seq<Recruiter>, users: seq<User>)
  {
    KeysDistinct(recruiters, RecruiterKey) && KeysDistinct(recruiters, RecruiterUser)
    && forall i :: 0 <= i < |recruiters| ==> ValidRecruiter(recruiters[i]) && HasUser(users, recruiters[i].userId)
  }

  /** Primary key and column constraints; recruiterId references nothing. */
  predicate JobsValid(jobs: seq<Job>)
  {
    KeysDistinct(jobs, JobKey) && forall i :: 0 <= i < |jobs| ==> ValidJob(jobs[i])
  }

  /** Primary key, and jobId and seekerId reference existing rows. There is
      no UNIQUE constraint on (seekerId, jobId). */
  predicate ApplicationsValid(apps: seq<Application>, jobs: seq<Job>, seekers: seq<Seeker>)
  {
    KeysDistinct(apps, ApplicationKey)
    && forall i :: 0 <= i < |apps| ==>
      ValidApplication(apps[i]) && HasJob(jobs, apps[i].jobId) && HasSeeker(seekers, apps[i].seekerId)
  }

  class Database {
    var users: seq<User>
    var seekers: seq<Seeker>
    var recruiters: seq<Recruiter>
    var jobs: seq<Job>
    var applications: seq<Application>

    ghost predicate Valid()
      reads this
    {
      UsersValid(users) && SeekersValid(seekers, users) && RecruitersValid(recruiters, users)
      && JobsValid(jobs) && ApplicationsValid(applications, jobs, seekers)
    }

    /** An empty database. */
    constructor ()
      ensures Valid()
      ensures users == [] && seekers == [] && recruiters == [] && jobs == [] && applications == []
    {
      users := [];
      seekers := [];
      recruiters := [];
      jobs := [];
      applications := [];
    }
  }

  // ------------------------------------------------------------- writes

  /** `INSERT INTO users`: refused on a column constraint, then on a
      duplicate id or email. */
  function InsertUser(users: seq<User>, u: User): (r: DbResult<seq<User>>)
    ensures r.Written? <==> ValidUser(u) && forall i :: 0 <= i < |users| ==> users[i].id != u.id && users[i].email != u.email
    ensures r.Written? ==> r.row == users + [u]
    ensures r.Refused? && ValidUser(u) ==> r.error.Duplicate?
    ensures UsersValid(users) && r.Written? ==> UsersValid(r.row)
  {
    if UserError(u).Some? then Refused(UserError(u).value)
    else if exists i :: 0 <= i < |users| && users[i].id == u.id then Refused(Duplicate("id"))
    else if exists i :: 0 <= i < |users| && users[i].email == u.email then Refused(Duplicate("email"))
    else
      KeysDistinctAppend(users, u, UserKey);
      KeysDistinctAppend(users, u, UserEmail);
      Written(users + [u])
  }

  /** `UPDATE users` of the row at index `k` to `u`, which keeps its id. */
  function UpdateUser(users: seq<User>, k: nat, u: User): (r: DbResult<seq<User>>)
    requires k < |users| && u.id == users[k].id
    ensures r.Written? <==> ValidUser(u) && forall i :: 0 <= i < |users| && i != k ==> users[i].email != u.email
    ensures r.Written? ==> r.row == users[k := u]
    ensures r.Refused? && ValidUser(u) ==> r.error.Duplicate?
    ensures UsersValid(users) && r.Written? ==> UsersValid(r.row)
  {
    if UserError(u).Some? then Refused(UserError(u).value)
    else if exists i :: 0 <= i < |users| && i != k && users[i].email == u.email then Refused(Duplicate("email"))
    else
      if UsersValid(users) then
        KeysDistinctUpdate(users, k, u, UserKey);
        KeysDistinctUpdate(users, k, u, UserEmail);
        Written(users[k := u])
      else Written(users[k := u])
  }

  /** `INSERT INTO seekers`: column constraints, then duplicate id or
      userId, then the reference to users. */
  function InsertSeeker(seekers: seq<Seeker>, users: seq<User>, s: Seeker): (r: DbResult<seq<Seeker>>)
    ensures r.Written? <==> (ValidSeeker(s) && HasUser(users, s.userId)
      && forall i :: 0 <= i < |seekers| ==> seekers[i].id != s.id && seekers[i].userId != s.userId)
    ensures r.Written? ==> r.row == seekers + [s]
    ensures r.Refused? && ValidSeeker(s) && (exists i :: 0 <= i < |seekers| && seekers[i].userId == s.userId) ==> r.error.Duplicate?
    ensures SeekersValid(seekers, users) && r.Written? ==> SeekersValid(r.row, users)
  {
    if SeekerError(s).Some? then Refused(SeekerError(s).value)
    else if exists i :: 0 <= i < |seekers| && seekers[i].id == s.id then Refused(Duplicate("id"))
    else if exists i :: 0 <= i < |seekers| && seekers[i].userId == s.userId then Refused(Duplicate("userId"))
    else if !HasUser(users, s.userId) then Refused(MissingReference("userId"))
    else
      KeysDistinctAppend(seekers, s, SeekerKey);
      KeysDistinctAppend(seekers, s, SeekerUser);
      Written(seekers + [s])
  }

  /** `UPDATE seekers` of the row at index `k` to `s`, which keeps its id. */
  function UpdateSeeker(seekers: seq<Seeker>, users: seq<User>, k: nat, s: Seeker): (r: DbResult<seq<Seeker>>)
    requires k < |seekers| && s.id == seekers[k].id
    ensures r.Written? <==> (ValidSeeker(s) && HasUser(users, s.userId)
      && forall i :: 0 <= i < |seekers| && i != k ==> seekers[i].userId != s.userId)
    ensures r.Written? ==> r.row == seekers[k := s]
    ensures SeekersValid(seekers, users) && r.Written? ==> SeekersValid(r.row, users)
  {
    if SeekerError(s).Some? then Refused(SeekerError(s).value)
    else if exists i :: 0 <= i < |seekers| && i != k && seekers[i].userId == s.userId then Refused(Duplicate("userId"))
    else if !HasUser(users, s.userId) then Refused(MissingReference("userId"))
    else
      if SeekersValid(seekers, users) then
        KeysDistinctUpdate(seekers, k, s, SeekerKey);
        KeysDistinctUpdate(seekers, k, s, SeekerUser);
        Written(seekers[k := s])
      else Written(seekers[k := s])
  }

  /** `INSERT INTO recruiters`: the isUrl validation and column
      constraints, then duplicate id or userId, then the reference to users. */
  function InsertRecruiter(recruiters: seq<Recruiter>, users: seq<User>, c: Recruiter, isUrl: string -> bool): (r: DbResult<seq<Recruiter>>)
    ensures r.Written? <==> (RecruiterError(c, isUrl).None? && HasUser(users, c.userId)
      && forall i :: 0 <= i < |recruiters| ==> recruiters[i].id != c.id && recruiters[i].userId != c.userId)
    ensures r.Written? ==> r.row == recruiters + [c]
    ensures r.Refused? && RecruiterError(c, isUrl).None? && (exists i :: 0 <= i < |recruiters| && recruiters[i].userId == c.userId) ==> r.error.Duplicate?
    ensures RecruitersValid(recruiters, users) && r.Written? ==> RecruitersValid(r.row, users)
  {
    if RecruiterError(c, isUrl).Some? then Refused(RecruiterError(c, isUrl).value)
    else if exists i :: 0 <= i < |recruiters| && recruiters[i].id == c.id then Refused(Duplicate("id"))
    else if exists i :: 0 <= i < |recruiters| && recruiters[i].userId == c.userId then Refused(Duplicate("userId"))
    else if !HasUser(users, c.userId) then Refused(MissingReference("userId"))
    else
      KeysDistinctAppend(recruiters, c, RecruiterKey);
      KeysDistinctAppend(recruiters, c, RecruiterUser);
      Written(recruiters + [c])
  }

  /** `UPDATE recruiters` of the row at index `k` to `c`, which keeps its id. */
  function UpdateRecruiter(recruiters: seq<Recruiter>, users: seq<User>, k: nat, c: Recruiter, isUrl: string -> bool): (r: DbResult<seq<Recruiter>>)
    requires k < |recruiters| && c.id == recruiters[k].id
    ensures r.Written? <==> (RecruiterError(c, isUrl).None? && HasUser(users, c.userId)
      && forall i :: 0 <= i < |recruiters| && i != k ==> recruiters[i].userId != c.userId)
    ensures r.Written? ==> r.row == recruiters[k := c]
    ensures RecruitersValid(recruiters, users) && r.Written? ==> RecruitersValid(r.row, users)
  {
    if RecruiterError(c, isUrl).Some? then Refused(RecruiterError(c, isUrl).value)
    else if exists i :: 0 <= i < |recruiters| && i != k && recruiters[i].userId == c.userId then Refused(Duplicate("userId"))
    else if !HasUser(users, c.userId) then Refused(MissingReference("userId"))
    else
      if RecruitersValid(recruiters, users) then
        KeysDistinctUpdate(recruiters, k, c, RecruiterKey);
        KeysDistinctUpdate(recruiters, k, c, RecruiterUser);
        Written(recruiters[k := c])
      else Written(recruiters[k := c])
  }

  /** `INSERT INTO jobs` of a row already built from its attributes:
      refused only on a duplicate id. */
  function InsertJob(jobs: seq<Job>, j: Job): (r: DbResult<seq<Job>>)
    ensures r.Written? <==> forall i :: 0 <= i < |jobs| ==> jobs[i].id != j.id
    ensures r.Written? ==> r.row == jobs + [j]
    ensures r.Refused? ==> r.error.Duplicate?
    ensures JobsValid(jobs) && ValidJob(j) && r.Written? ==> JobsValid(r.row)
  {
    if exists i :: 0 <= i < |jobs| && jobs[i].id == j.id then Refused(Duplicate("id"))
    else
      KeysDistinctAppend(jobs, j, JobKey);
      Written(jobs + [j])
  }

  /** `INSERT INTO applications`: column constraints, then a duplicate
      id, then the references to jobs and seekers. */
  function InsertApplication(apps: seq<Application>, jobs: seq<Job>, seekers: seq<Seeker>, a: Application): (r: DbResult<seq<Application>>)
    ensures r.Written? <==> (ValidApplication(a) && HasJob(jobs, a.jobId) && HasSeeker(seekers, a.seekerId)
      && forall i :: 0 <= i < |apps| ==> apps[i].id != a.id)
    ensures r.Written? ==> r.row == apps + [a]
    ensures ApplicationsValid(apps, jobs, seekers) && r.Written? ==> ApplicationsValid(r.row, jobs, seekers)
  {
    if ApplicationError(a).Some? then Refused(ApplicationError(a).value)
    else if exists i :: 0 <= i < |apps| && apps[i].id == a.id then Refused(Duplicate("id"))
    else if !HasJob(jobs, a.jobId) then Refused(MissingReference("jobId"))
    else if !HasSeeker(seekers, a.seekerId) then Refused(MissingReference("seekerId"))
    else
      KeysDistinctAppend(apps, a, ApplicationKey);
      Written(apps + [a])
  }

  /** Writes that remove no user id keep the seekers' and recruiters'
      references valid. */
  lemma UserReferencesKept(seekers: seq<Seeker>, recruiters: seq<Recruiter>, users: seq<User>, users': seq<User>)
    requires SeekersValid(seekers, users) && RecruitersValid(recruiters, users)
    requires forall v :: HasKey(users, UserKey, v) ==> HasKey(users', UserKey, v)
    ensures SeekersValid(seekers, users') && RecruitersValid(recruiters, users')
  {
  }

  /** Writes that remove no job or seeker id keep the applications'
      references valid. */
  lemma ApplicationReferencesKept(apps: seq<Application>, jobs: seq<Job>, jobs': seq<Job>, seekers: seq<Seeker>, seekers': seq<Seeker>)
    requires ApplicationsValid(apps, jobs, seekers)
    requires forall v :: HasKey(jobs, JobKey, v) ==> HasKey(jobs', JobKey, v)
    requires forall v :: HasKey(seekers, SeekerKey, v) ==> HasKey(seekers', SeekerKey, v)
    ensures ApplicationsValid(apps, jobs', seekers')
  {
  }

  // ------------------------------------------------------------ queries

  /** `User.findByPk(id)`: the index of the user with that id. */
  function UserIndex(users: seq<User>, id: string): (r: Option<nat>)
    ensures r.Some? ==> r.value < |users| && users[r.value].id == id
    ensures r.None? <==> !HasUser(users, id)
  {
    FindIndex(users, (u: User) => u.id == id)
  }

  /** `Seeker.findOne({ where: { userId } })`. */
  function SeekerOfUser(seekers: seq<Seeker>, userId: string): (r: Option<Seeker>)
    ensures r.Some? ==> r.value in seekers && r.value.userId == userId
    ensures r.None? <==> forall i :: 0 <= i < |seekers| ==> seekers[i].userId != userId
  {
    Find(seekers, (s: Seeker) => s.userId == userId)
  }

  /** `Recruiter.findOne({ where: { userId } })`. */
  function RecruiterOfUser(recruiters: seq<Recruiter>, userId: string): (r: Option<Recruiter>)
    ensures r.Some? ==> r.value in recruiters && r.value.userId == userId
    ensures r.None? <==> forall i :: 0 <= i < |recruiters| ==> recruiters[i].userId != userId
  {
    Find(recruiters, (c: Recruiter) => c.userId == userId)
  }

  /** A page of a `findAndCountAll` result. */
  datatype Page<T> = Page(rows: seq<T>, total: nat, currentPage: int, totalPages: int)

  /** The offset of page `page` (counted from 1). */
  function Offset(page: int, pageSize: int): int
  {
    (page - 1) * pageSize
  }

  /** `OFFSET offset LIMIT limit`: PostgreSQL refuses a negative offset
      before a negative limit; otherwise the window of the ordered rows. */
  function Paginate<T>(ordered: seq<T>, offset: int, limit: int): (r: Result<seq<T>>)
    ensures r.Ok? <==> offset >= 0 && limit >= 0
    ensures r.Ok? ==> r.value == Window(ordered, offset, limit)
    ensures r.Err? ==> r.failure.OtherError? && r.failure.name == "SequelizeDatabaseError"
  {
    if offset < 0 then Err(OtherError("SequelizeDatabaseError", "OFFSET must not be negative"))
    else if limit < 0 then Err(OtherError("SequelizeDatabaseError", "LIMIT must not be negative"))
    else Ok(Window(ordered, offset, limit))
  }
}
