/** `updateSeeker` route: the userId comes from the request body, and the
    whole body, userId included, is the update. */
module SeekerController {
  import opened Wrappers
  import opened Errors
  import opened Schema
  import opened Store
  import opened Requests
  import opened SeekerService

  /** The update the body describes; keys that are not seeker attributes
      are ignored by `update`. */
  function SeekerPatchOf(body: Body): (p: SeekerPatch)
    ensures p.userId == BodyField(body, "userId")
    ensures p.employmentStatus == BodyField(body, "employmentStatus")
    ensures p.resumeUrl == BodyField(body, "resumeUrl")
  {
    SeekerPatch(BodyField(body, "userId"), BodyField(body, "employmentStatus"), BodyField(body, "resumeUrl"))
  }

  /** The checks: a falsy body userId, then a body of at most one key. */
  function SeekerUpdateGuard(body: Body): (r: Result<string>)
    ensures Truthy(BodyText(body, "userId")).None? ==> r == Err(ApiError(BAD_REQUEST, "User ID is required."))
    ensures Truthy(BodyText(body, "userId")).Some? && |body| <= 1 ==> r == Err(ApiError(BAD_REQUEST, "No updates provided."))
    ensures r.Ok? <==> Truthy(BodyText(body, "userId")).Some? && |body| > 1
    ensures r.Ok? ==> "userId" in body && body["userId"] == JStr(r.value)
  {
    var userId := Truthy(BodyText(body, "userId"));
    if userId.None? then Err(ApiError(BAD_REQUEST, "User ID is required."))
    else if |body| <= 1 then Err(ApiError(BAD_REQUEST, "No updates provided."))
    else Ok(userId.value)
  }

  /** A body with only a userId never reaches the service. */
  lemma OnlyUserIdIsNoUpdate(userId: string)
    ensures SeekerUpdateGuard(map["userId" := JStr(userId)]).Err?
  {
    assert |map["userId" := JStr(userId)]| == 1;
  }

  /** `updateSeeker`: the guard's 400s change nothing; otherwise the
      service updates the profile of the body's userId (whose own userId
      stays that value) and the answer is 200 with it. */
  method UpdateSeekerHandler(db: Database, body: Body) returns (res: Response<Seeker>)
    requires db.Valid()
    modifies db`seekers
    ensures db.Valid()
    ensures SeekerUpdateGuard(body).Err? ==> res == ErrorResponse(SeekerUpdateGuard(body).failure) && db.seekers == old(db.seekers)
    ensures SeekerUpdateGuard(body).Ok? && SeekerOfUser(old(db.seekers), SeekerUpdateGuard(body).value).None? ==>
      res == Response(NOT_FOUND, "Seeker profile not found for this user.", None)
    ensures res.status == OK ==> (
      && SeekerUpdateGuard(body).Ok? && res.message == "Seeker profile updated successfully." && res.data.Some?
      && res.data.value.userId == SeekerUpdateGuard(body).value
      && var k := SeekerIndexOfUser(old(db.seekers), SeekerUpdateGuard(body).value).value;
         db.seekers == old(db.seekers)[k := res.data.value])
    ensures var g := SeekerUpdateGuard(body);
      g.Ok? && SeekerOfUser(old(db.seekers), g.value).Some? ==>
      var k := SeekerIndexOfUser(old(db.seekers), g.value).value;
      var p := ApplySeekerPatch(old(db.seekers)[k], SeekerPatchOf(body));
      && (res.status == OK <==> p.Written? && Store.UpdateSeeker(old(db.seekers), db.users, k, p.row).Written?)
      && (res.status == OK ==> res.data == Some(p.row))
      && (p.Refused? ==> res == Response(INTERNAL_SERVER_ERROR,
                                         "Failed to update seeker profile. " + ErrorString(DbFailure(p.error)), None))
      && (p.Written? && Store.UpdateSeeker(old(db.seekers), db.users, k, p.row).Refused? ==>
            res == Response(INTERNAL_SERVER_ERROR,
                            "Failed to update seeker profile. " + ErrorString(DbFailure(Store.UpdateSeeker(old(db.seekers), db.users, k, p.row).error)), None))
    ensures res.status != OK ==> db.seekers == old(db.seekers)
  {
    var g := SeekerUpdateGuard(body);
    if g.Err? {
      return ErrorResponse(g.failure);
    }
    var r := SeekerService.UpdateSeeker(db, g.value, SeekerPatchOf(body));
    if r.Err? {
      return ErrorResponse(r.failure);
    }
    return Response(OK, "Seeker profile updated successfully.", Some(r.value));
  }
}
