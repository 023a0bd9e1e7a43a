/** The recruiter service: creating, updating and reading the recruiter
    profile of a user. The `isUrl` validator of companyUrl is a
    parameter. */
module RecruiterService {
  import opened Wrappers
  import opened Seqs
  import opened Errors
  import opened Schema
  import opened Store

  /** Index of the recruiter profile of `userId`. */
  function RecruiterIndexOfUser(recruiters: seq<Recruiter>, userId: string): (r: Option<nat>)
    ensures r.Some? ==> r.value < |recruiters| && recruiters[r.value].userId == userId
    ensures r.None? <==> RecruiterOfUser(recruiters, userId).None?
  {
    FindIndex(recruiters, (c: Recruiter) => c.userId == userId)
  }

  /** `createRecruiter`: a unique violation (the user already has a
      profile, or the id is taken) is CONFLICT; every other refusal is a
      500 whose message embeds the error's string form. */
  method CreateRecruiter(db: Database, attrs: RecruiterAttributes, newId: string, isUrl: string -> bool)
    returns (r: Result<Recruiter>)
    requires db.Valid()
    modifies db`recruiters
    ensures db.Valid()
    ensures var w := InsertRecruiter(old(db.recruiters), db.users, NewRecruiter(attrs, newId), isUrl);
      && (w.Written? ==> r == Ok(NewRecruiter(attrs, newId)) && db.recruiters == w.row)
      && (w.Refused? ==> db.recruiters == old(db.recruiters))
      && (w.Refused? && w.error.Duplicate? ==>
            r == Err(ApiError(CONFLICT, "A recruiter profile already exists for this user.")))
      && (w.Refused? && !w.error.Duplicate? ==>
            r == Err(ApiError(INTERNAL_SERVER_ERROR, "Failed to create recruiter profile. " + ErrorString(DbFailure(w.error)))))
    ensures RecruiterError(NewRecruiter(attrs, newId), isUrl).None? && RecruiterOfUser(old(db.recruiters), attrs.userId).Some? ==>
      r == Err(ApiError(CONFLICT, "A recruiter profile already exists for this user."))
  {
    var row := NewRecruiter(attrs, newId);
    var written := InsertRecruiter(db.recruiters, db.users, row, isUrl);
    if written.Refused? {
      var f := DbFailure(written.error);
      if f.name == "SequelizeUniqueConstraintError" {
        return Err(ApiError(CONFLICT, "A recruiter profile already exists for this user."));
      }
      return Err(RethrowString(f, "Failed to create recruiter profile. "));
    }
    db.recruiters := written.row;
    return Ok(row);
  }

  /** The profile after `recruiter.update(patch)`: only the given
      attributes change, and null is refused for userId. */
  function ApplyRecruiterPatch(c: Recruiter, p: RecruiterPatch): (r: DbResult<Recruiter>)
    ensures r.Written? <==> !p.userId.Null?
    ensures r.Written? ==> (
      && r.row.id == c.id
      && r.row.userId == (if p.userId.Given? then p.userId.value else c.userId)
      && r.row.companyName == SetNullable(p.companyName, c.companyName)
      && r.row.companyUrl == SetNullable(p.companyUrl, c.companyUrl))
  {
    var userId :- SetColumn(p.userId, c.userId, "userId");
    Written(Recruiter(c.id, userId, SetNullable(p.companyName, c.companyName), SetNullable(p.companyUrl, c.companyUrl)))
  }

  /** Sequelize validates only the attributes an update changes: the URL
      check applies to companyUrl only when the patch sets it. */
  function UrlCheck(p: RecruiterPatch, isUrl: string -> bool): (check: string -> bool)
    ensures p.companyUrl.Given? ==> check == isUrl
    ensures !p.companyUrl.Given? ==> forall u :: check(u)
  {
    if p.companyUrl.Given? then isUrl else (u: string) => true
  }

  /** `updateRecruiter`: NOT_FOUND when the user has no recruiter
      profile; otherwise only that profile changes, as the patch says, or
      the refusal becomes a 500 embedding the error's string form. */
  method UpdateRecruiter(db: Database, userId: string, patch: RecruiterPatch, isUrl: string -> bool)
    returns (r: Result<Recruiter>)
    requires db.Valid()
    modifies db`recruiters
    ensures db.Valid()
    ensures r.Err? ==> db.recruiters == old(db.recruiters) && r.failure.ApiError?
    ensures RecruiterOfUser(old(db.recruiters), userId).None? ==>
      r == Err(ApiError(NOT_FOUND, "Recruiter profile not found for this user."))
    ensures RecruiterOfUser(old(db.recruiters), userId).Some? ==>
      var k := RecruiterIndexOfUser(old(db.recruiters), userId).value;
      var p := ApplyRecruiterPatch(old(db.recruiters)[k], patch);
      var w := if p.Written? then Store.UpdateRecruiter(old(db.recruiters), db.users, k, p.row, UrlCheck(patch, isUrl)) else Refused(p.error);
      && (w.Written? ==> r == Ok(p.row) && db.recruiters == old(db.recruiters)[k := p.row])
      && (w.Refused? ==> r == Err(ApiError(INTERNAL_SERVER_ERROR, "Failed to update recruiter profile. " + ErrorString(DbFailure(w.error)))))
  {
    var found := RecruiterIndexOfUser(db.recruiters, userId);
    if found.None? {
      return Err(ApiError(NOT_FOUND, "Recruiter profile not found for this user."));
    }
    var k := found.value;
    var patched := ApplyRecruiterPatch(db.recruiters[k], patch);
    if patched.Refused? {
      return Err(RethrowString(DbFailure(patched.error), "Failed to update recruiter profile. "));
    }
    var written := Store.UpdateRecruiter(db.recruiters, db.users, k, patched.row, UrlCheck(patch, isUrl));
    if written.Refused? {
      return Err(RethrowString(DbFailure(written.error), "Failed to update recruiter profile. "));
    }
    db.recruiters := written.row;
    return Ok(patched.row);
  }

  /** `getRecruiter`: the recruiter profile of `userId`, or NOT_FOUND. */
  function GetRecruiter(recruiters: seq<Recruiter>, userId: string): (r: Result<Recruiter>)
    ensures r.Ok? ==> r.value in recruiters && r.value.userId == userId
    ensures r.Err? <==> forall i :: 0 <= i < |recruiters| ==> recruiters[i].userId != userId
    ensures r.Err? ==> r.failure == ApiError(NOT_FOUND, "Recruiter profile not found for this user.")
  {
    match RecruiterOfUser(recruiters, userId)
    case None => Err(ApiError(NOT_FOUND, "Recruiter profile not found for this user."))
    case Some(c) => Ok(c)
  }

  /** With profiles unique per user, the profile `getRecruiter` returns
      is the only one of that user. */
  lemma GetRecruiterUnique(recruiters: seq<Recruiter>, users: seq<User>, userId: string, c: Recruiter)
    requires RecruitersValid(recruiters, users)
    requires c in recruiters && c.userId == userId
    ensures GetRecruiter(recruiters, userId) == Ok(c)
  {
    var r := GetRecruiter(recruiters, userId);
    var i :| 0 <= i < |recruiters| && recruiters[i] == c;
    var j :| 0 <= j < |recruiters| && recruiters[j] == r.value;
    assert RecruiterUser(recruiters[i]) == RecruiterUser(recruiters[j]);
  }
}
