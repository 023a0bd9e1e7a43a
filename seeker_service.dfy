/** The seeker service: creating a seeker profile, where a second
    profile for the same user returns the first one, and updating the
    profile of a user. */
module SeekerService {
  import opened Wrappers
  import opened Seqs
  import opened Errors
  import opened Schema
  import opened Store

  /** Index of the seeker profile of `userId`. */
  function SeekerIndexOfUser(seekers: seq<Seeker>, userId: string): (r: Option<nat>)
    ensures r.Some? ==> r.value < |seekers| && seekers[r.value].userId == userId
    ensures r.None? <==> SeekerOfUser(seekers, userId).None?
  {
    FindIndex(seekers, (s: Seeker) => s.userId == userId)
  }

  /** `createSeeker`: inserts the profile. When the insert hits a unique
      constraint and the user already has a profile, that profile is the
      result and nothing is written; every other refusal is a 500 whose
      message embeds the error's string form. */
  method CreateSeeker(db: Database, attrs: SeekerAttributes, newId: string) returns (r: Result<Seeker>)
    requires db.Valid()
    modifies db`seekers
    ensures db.Valid()
    ensures r.Ok? ==> r.value in db.seekers && r.value.userId == attrs.userId
    ensures var w := InsertSeeker(old(db.seekers), db.users, NewSeeker(attrs, newId));
      && (w.Written? ==> r == Ok(NewSeeker(attrs, newId)) && db.seekers == w.row)
      && (w.Refused? ==> db.seekers == old(db.seekers))
      && (w.Refused? && !(IsUniqueViolation(DbFailure(w.error)) && SeekerOfUser(old(db.seekers), attrs.userId).Some?) ==>
            r == Err(ApiError(INTERNAL_SERVER_ERROR, "Failed to create seeker profile." + ErrorString(DbFailure(w.error)))))
    ensures ValidSeeker(NewSeeker(attrs, newId)) && SeekerOfUser(old(db.seekers), attrs.userId).Some? ==>
      r == Ok(SeekerOfUser(old(db.seekers), attrs.userId).value)
  {
    var row := NewSeeker(attrs, newId);
    var written := InsertSeeker(db.seekers, db.users, row);
    if written.Refused? {
      var f := DbFailure(written.error);
      if f.name == "SequelizeUniqueConstraintError" {
        var existing := SeekerOfUser(db.seekers, attrs.userId);
        if existing.Some? {
          return Ok(existing.value);
        }
      }
      return Err(RethrowString(f, "Failed to create seeker profile."));
    }
    HasKeyAppend(db.seekers, row, SeekerKey);
    ApplicationReferencesKept(db.applications, db.jobs, db.jobs, db.seekers, written.row);
    db.seekers := written.row;
    return Ok(row);
  }

  /** The profile after `seeker.update(patch)`: only the given attributes
      change, and null is refused for userId. */
  function ApplySeekerPatch(s: Seeker, p: SeekerPatch): (r: DbResult<Seeker>)
    ensures r.Written? <==> !p.userId.Null?
    ensures r.Written? ==> (
      && r.row.id == s.id
      && r.row.userId == (if p.userId.Given? then p.userId.value else s.userId)
      && r.row.employmentStatus == SetNullable(p.employmentStatus, s.employmentStatus)
      && r.row.resumeUrl == SetNullable(p.resumeUrl, s.resumeUrl))
  {
    var userId :- SetColumn(p.userId, s.userId, "userId");
    Written(Seeker(s.id, userId, SetNullable(p.employmentStatus, s.employmentStatus), SetNullable(p.resumeUrl, s.resumeUrl)))
  }

  /** `updateSeeker`: NOT_FOUND when the user has no seeker profile;
      otherwise only that profile changes, as the patch says, or the
      refusal becomes a 500 embedding the error's string form. */
  method UpdateSeeker(db: Database, userId: string, patch: SeekerPatch) returns (r: Result<Seeker>)
    requires db.Valid()
    modifies db`seekers
    ensures db.Valid()
    ensures r.Err? ==> db.seekers == old(db.seekers) && r.failure.ApiError?
    ensures SeekerOfUser(old(db.seekers), userId).None? ==>
      r == Err(ApiError(NOT_FOUND, "Seeker profile not found for this user."))
    ensures SeekerOfUser(old(db.seekers), userId).Some? ==>
      var k := SeekerIndexOfUser(old(db.seekers), userId).value;
      var p := ApplySeekerPatch(old(db.seekers)[k], patch);
      var w := if p.Written? then Store.UpdateSeeker(old(db.seekers), db.users, k, p.row) else Refused(p.error);
      && (w.Written? ==> r == Ok(p.row) && db.seekers == old(db.seekers)[k := p.row])
      && (w.Refused? ==> r == Err(ApiError(INTERNAL_SERVER_ERROR, "Failed to update seeker profile. " + ErrorString(DbFailure(w.error)))))
  {
    var found := SeekerIndexOfUser(db.seekers, userId);
    if found.None? {
      return Err(ApiError(NOT_FOUND, "Seeker profile not found for this user."));
    }
    var k := found.value;
    var patched := ApplySeekerPatch(db.seekers[k], patch);
    if patched.Refused? {
      return Err(RethrowString(DbFailure(patched.error), "Failed to update seeker profile. "));
    }
    var written := Store.UpdateSeeker(db.seekers, db.users, k, patched.row);
    if written.Refused? {
      return Err(RethrowString(DbFailure(written.error), "Failed to update seeker profile. "));
    }
    HasKeyUpdate(db.seekers, k, patched.row, SeekerKey);
    ApplicationReferencesKept(db.applications, db.jobs, db.jobs, db.seekers, written.row);
    db.seekers := written.row;
    return Ok(patched.row);
  }

  /** Creating a profile twice for the same user yields the same profile
      and stores it once. */
  lemma CreateSeekerTwice(seekers: seq<Seeker>, users: seq<User>, a: SeekerAttributes, id1: string, id2: string)
    requires SeekersValid(seekers, users)
    requires InsertSeeker(seekers, users, NewSeeker(a, id1)).Written?
    ensures var s1 := InsertSeeker(seekers, users, NewSeeker(a, id1)).row;
      && (ValidSeeker(NewSeeker(a, id2)) ==> InsertSeeker(s1, users, NewSeeker(a, id2)).Refused?)
      && SeekerOfUser(s1, a.userId) == Some(NewSeeker(a, id1))
  {
    var s1 := InsertSeeker(seekers, users, NewSeeker(a, id1)).row;
    assert s1[|seekers|] == NewSeeker(a, id1);
    assert SeekersValid(s1, users);
    var f := SeekerOfUser(s1, a.userId);
    assert f.Some?;
    var j :| 0 <= j < |s1| && s1[j] == f.value;
    assert SeekerUser(s1[j]) == SeekerUser(s1[|seekers|]);
  }
}
