/** The user service: the composite lookup of a user with the profile its
    role calls for, creation, and the update of any attributes. */
module UserService {
  import opened Wrappers
  import opened Seqs
  import opened Errors
  import opened Schema
  import opened Store

  /** A user and at most one attached profile. */
  datatype UserData = UserData(user: User, seeker: Option<Seeker>, recruiter: Option<Recruiter>)

  /** `getUser`: NOT_FOUND for an unknown id. Role `seeker` attaches the
      user's seeker profile and role `recruiter` the recruiter profile,
      each only when it exists; any other role, null included, attaches
      neither. A missing profile is not an error. */
  function GetUser(users: seq<User>, seekers: seq<Seeker>, recruiters: seq<Recruiter>, userId: string)
    : (r: Result<UserData>)
    ensures r.Err? <==> !HasUser(users, userId)
    ensures r.Err? ==> r.failure == ApiError(NOT_FOUND, "User not found.")
    ensures r.Ok? ==> r.value.user in users && r.value.user.id == userId
    ensures r.Ok? ==> r.value.seeker.None? || r.value.recruiter.None?
    ensures r.Ok? ==> (r.value.seeker ==
      if r.value.user.role == Some("seeker") then SeekerOfUser(seekers, userId) else None)
    ensures r.Ok? ==> (r.value.recruiter ==
      if r.value.user.role == Some("recruiter") then RecruiterOfUser(recruiters, userId) else None)
  {
    match UserIndex(users, userId)
    case None => Err(ApiError(NOT_FOUND, "User not found."))
    case Some(k) =>
      var user := users[k];
      if user.role == Some("seeker") then Ok(UserData(user, SeekerOfUser(seekers, user.id), None))
      else if user.role == Some("recruiter") then Ok(UserData(user, None, RecruiterOfUser(recruiters, user.id)))
      else Ok(UserData(user, None, None))
  }

  /** `createUser`: a unique violation (the id or the email is taken)
      becomes CONFLICT, any other refusal a 500 carrying its message. */
  method CreateUser(db: Database, attrs: UserAttributes, newId: string) returns (r: Result<User>)
    requires db.Valid()
    modifies db`users
    ensures db.Valid()
    ensures r.Ok? <==> InsertUser(old(db.users), NewUser(attrs, newId)).Written?
    ensures r.Ok? ==> r.value == NewUser(attrs, newId) && db.users == old(db.users) + [r.value]
    ensures r.Err? ==> db.users == old(db.users) && r.failure.ApiError?
    ensures r.Err? && ValidUser(NewUser(attrs, newId)) ==>
      r.failure == ApiError(CONFLICT, "User with this email/username already exists.")
    ensures r.Err? && !ValidUser(NewUser(attrs, newId)) ==>
      r.failure == ApiError(INTERNAL_SERVER_ERROR,
        "Failed to create user: " + DbErrorMessage(UserError(NewUser(attrs, newId)).value))
  {
    var row := NewUser(attrs, newId);
    var written := InsertUser(db.users, row);
    if written.Refused? {
      var f := DbFailure(written.error);
      if IsUniqueViolation(f) {
        return Err(ApiError(CONFLICT, "User with this email/username already exists."));
      }
      return Err(RethrowMessage(f, "Failed to create user: "));
    }
    HasKeyAppend(db.users, row, UserKey);
    UserReferencesKept(db.seekers, db.recruiters, db.users, written.row);
    db.users := written.row;
    return Ok(row);
  }

  /** The user after `user.update(patch)`: only the given attributes
      change; null is refused for the NOT NULL names and email. */
  function ApplyUserPatch(u: User, p: UserPatch): (r: DbResult<User>)
    ensures r.Written? <==> !p.firstName.Null? && !p.lastName.Null? && !p.email.Null?
    ensures r.Written? ==> (
      && r.row.id == u.id
      && r.row.firstName == (if p.firstName.Given? then p.firstName.value else u.firstName)
      && r.row.lastName == (if p.lastName.Given? then p.lastName.value else u.lastName)
      && r.row.email == (if p.email.Given? then p.email.value else u.email)
      && r.row.phone == SetNullable(p.phone, u.phone)
      && r.row.role == SetNullable(p.role, u.role))
  {
    var firstName :- SetColumn(p.firstName, u.firstName, "firstName");
    var lastName :- SetColumn(p.lastName, u.lastName, "lastName");
    var email :- SetColumn(p.email, u.email, "email");
    Written(User(u.id, firstName, lastName, email, SetNullable(p.phone, u.phone), SetNullable(p.role, u.role)))
  }

  /** `updateAnyUserAttribute`: NOT_FOUND for an unknown id; CONFLICT when
      the new email belongs to another user; otherwise only the given
      attributes of that one user change. */
  method UpdateAnyUserAttribute(db: Database, userId: string, patch: UserPatch) returns (r: Result<User>)
    requires db.Valid()
    modifies db`users
    ensures db.Valid()
    ensures r.Err? ==> db.users == old(db.users) && r.failure.ApiError?
    ensures !HasUser(old(db.users), userId) ==> r == Err(ApiError(NOT_FOUND, "User not found."))
    ensures r.Ok? <==> (
      && HasUser(old(db.users), userId)
      && var k := UserIndex(old(db.users), userId).value;
         && ApplyUserPatch(old(db.users)[k], patch).Written?
         && UpdateUser(old(db.users), k, ApplyUserPatch(old(db.users)[k], patch).row).Written?)
    ensures r.Ok? ==> var k := UserIndex(old(db.users), userId).value;
      r.value == ApplyUserPatch(old(db.users)[k], patch).row && db.users == old(db.users)[k := r.value]
    ensures r.Err? && HasUser(old(db.users), userId) ==>
      var k := UserIndex(old(db.users), userId).value;
      var u := ApplyUserPatch(old(db.users)[k], patch);
      u.Written? && ValidUser(u.row) ==>
        r.failure == ApiError(CONFLICT, "The updated value for this attribute already exists for another user.")
  {
    var found := UserIndex(db.users, userId);
    if found.None? {
      return Err(ApiError(NOT_FOUND, "User not found."));
    }
    var k := found.value;
    var patched := ApplyUserPatch(db.users[k], patch);
    if patched.Refused? {
      return Err(RethrowMessage(DbFailure(patched.error), "Failed to update user: "));
    }
    var written := UpdateUser(db.users, k, patched.row);
    if written.Refused? {
      var f := DbFailure(written.error);
      if IsUniqueViolation(f) {
        return Err(ApiError(CONFLICT, "The updated value for this attribute already exists for another user."));
      }
      return Err(RethrowMessage(f, "Failed to update user: "));
    }
    HasKeyUpdate(db.users, k, patched.row, UserKey);
    UserReferencesKept(db.seekers, db.recruiters, db.users, written.row);
    db.users := written.row;
    return Ok(patched.row);
  }
}
