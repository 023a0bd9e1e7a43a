/** `checkRole(requiredRole)`: the guard in front of the role-restricted
    routes. It either lets the request through or answers it. */
module RoleMiddleware {
  import opened Wrappers
  import opened Errors
  import opened Schema
  import opened Store
  import opened Requests

  datatype Decision = Next | Answer(status: int, message: string)

  /** `findByPk(userId)`, read for its role. */
  function RoleOf(users: seq<User>, userId: string): (r: Option<Option<string>>)
    ensures r.Some? <==> HasUser(users, userId)
    ensures r.Some? ==> r.value == users[UserIndex(users, userId).value].role
  {
    match UserIndex(users, userId)
    case None => None
    case Some(k) => Some(users[k].role)
  }

  /** The decision for a request carrying `userId`. `lookupFails` stands
      for the database lookup throwing. */
  function CheckRole(users: seq<User>, userId: Option<string>, requiredRole: string, lookupFails: bool)
    : (d: Decision)
    ensures Truthy(userId).None? ==> d == Answer(401, "Unauthorized: User ID not found.")
    ensures Truthy(userId).Some? && lookupFails ==> d == Answer(500, "Internal server error during role check.")
    ensures Truthy(userId).Some? && !lookupFails && !HasUser(users, userId.value) ==>
      d == Answer(404, "Unauthorized: User not found.")
    ensures d.Next? <==> (
      && Truthy(userId).Some? && !lookupFails && HasUser(users, userId.value)
      && RoleOf(users, userId.value) == Some(Some(requiredRole)) && requiredRole != "")
    ensures Truthy(userId).Some? && !lookupFails && HasUser(users, userId.value) && !d.Next? ==>
      d == Answer(403, "Forbidden: Insufficient role.")
  {
    if Truthy(userId).None? then Answer(401, "Unauthorized: User ID not found.")
    else if lookupFails then Answer(500, "Internal server error during role check.")
    else match RoleOf(users, userId.value)
      case None => Answer(404, "Unauthorized: User not found.")
      case Some(role) =>
        if role.None? || role.value == "" || role.value != requiredRole then Answer(403, "Forbidden: Insufficient role.")
        else Next
  }
}
