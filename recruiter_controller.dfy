/** `updateRecruiter` route: the userId is the authenticated one, and the
    body is the update. */
module RecruiterController {
  import opened Wrappers
  import opened Errors
  import opened Schema
  import opened Store
  import opened Requests
  import opened RecruiterService

  /** The update the body describes; keys that are not recruiter
      attributes are ignored by `update`. */
  function RecruiterPatchOf(body: Body): (p: RecruiterPatch)
    ensures p.userId == BodyField(body, "userId")
    ensures p.companyName == BodyField(body, "companyName")
    ensures p.companyUrl == BodyField(body, "companyUrl")
  {
    RecruiterPatch(BodyField(body, "userId"), BodyField(body, "companyName"), BodyField(body, "companyUrl"))
  }

  /** The checks: a falsy authenticated userId, then an empty body. */
  function RecruiterUpdateGuard(userId: Option<string>, body: Body): (r: Result<string>)
    ensures Truthy(userId).None? ==> r == Err(ApiError(BAD_REQUEST, "User ID is required."))
    ensures Truthy(userId).Some? && |body| == 0 ==> r == Err(ApiError(BAD_REQUEST, "No updates provided."))
    ensures r.Ok? <==> Truthy(userId).Some? && |body| >= 1
    ensures r.Ok? ==> r.value == userId.value
  {
    if Truthy(userId).None? then Err(ApiError(BAD_REQUEST, "User ID is required."))
    else if |body| < 1 then Err(ApiError(BAD_REQUEST, "No updates provided."))
    else Ok(userId.value)
  }

  /** `updateRecruiter`: the guard's 400s change nothing; otherwise the
      caller's own profile is the one updated, and the answer is 200
      with it. */
  method UpdateRecruiterHandler(db: Database, userId: Option<string>, body: Body, isUrl: string -> bool)
    returns (res: Response<Recruiter>)
    requires db.Valid()
    modifies db`recruiters
    ensures db.Valid()
    ensures RecruiterUpdateGuard(userId, body).Err? ==>
      res == ErrorResponse(RecruiterUpdateGuard(userId, body).failure) && db.recruiters == old(db.recruiters)
    ensures RecruiterUpdateGuard(userId, body).Ok? && RecruiterOfUser(old(db.recruiters), userId.value).None? ==>
      res == Response(NOT_FOUND, "Recruiter profile not found for this user.", None)
    ensures res.status == OK ==> (
      && RecruiterUpdateGuard(userId, body).Ok? && res.message == "Recruiter profile updated successfully." && res.data.Some?
      && var k := RecruiterIndexOfUser(old(db.recruiters), userId.value).value;
         && old(db.recruiters)[k].userId == userId.value
         && res.data.value.id == old(db.recruiters)[k].id
         && db.recruiters == old(db.recruiters)[k := res.data.value])
    ensures var g := RecruiterUpdateGuard(userId, body);
      g.Ok? && RecruiterOfUser(old(db.recruiters), g.value).Some? ==>
      var k := RecruiterIndexOfUser(old(db.recruiters), g.value).value;
      var p := ApplyRecruiterPatch(old(db.recruiters)[k], RecruiterPatchOf(body));
      && (res.status == OK <==> p.Written? && Store.UpdateRecruiter(old(db.recruiters), db.users, k, p.row, UrlCheck(RecruiterPatchOf(body), isUrl)).Written?)
      && (res.status == OK ==> res.data == Some(p.row))
      && (p.Refused? ==> res == Response(INTERNAL_SERVER_ERROR,
                                         "Failed to update recruiter profile. " + ErrorString(DbFailure(p.error)), None))
      && (p.Written? && Store.UpdateRecruiter(old(db.recruiters), db.users, k, p.row, UrlCheck(RecruiterPatchOf(body), isUrl)).Refused? ==>
            res == Response(INTERNAL_SERVER_ERROR,
                            "Failed to update recruiter profile. " + ErrorString(DbFailure(Store.UpdateRecruiter(old(db.recruiters), db.users, k, p.row, UrlCheck(RecruiterPatchOf(body), isUrl)).error)), None))
    ensures res.status != OK ==> db.recruiters == old(db.recruiters)
  {
    var g := RecruiterUpdateGuard(userId, body);
    if g.Err? {
      return ErrorResponse(g.failure);
    }
    var r := RecruiterService.UpdateRecruiter(db, g.value, RecruiterPatchOf(body), isUrl);
    if r.Err? {
      return ErrorResponse(r.failure);
    }
    return Response(OK, "Recruiter profile updated successfully.", Some(r.value));
  }
}
