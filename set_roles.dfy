/** `setRole`: an authenticated user picks a role. */
module SetRoleHandler {
  import opened Js
  import opened Http
  import opened Identity

  const AUTH_REQUIRED: string := "Authentication required."
  const ROLE_REQUIRED: string := "Role is required."
  const INVALID_ROLE: string := "Invalid role."
  const INTERNAL: string := "Internal server error"

  /** The user fields the handler answers with. */
  datatype RoleView = RoleView(id: UserId, email: Option<string>, role: string)

  /** The confirmation echoes the role as the request spelled it, not its upper case. */
  function RoleUpdatedMessage(role: string): (m: string)
    ensures |m| == 16 + |role| && m[..16] == "Role updated to " && m[16..] == role
  {
    "Role updated to " + role
  }

  /** `setRole`. `auth` is the authenticated user's id. */
  method SetRole(store: IdentityStore, auth: Field<string>, role: Field<string>)
    returns (resp: Response, view: Option<RoleView>)
    requires store.Valid()
    modifies store
    ensures store.Valid() && store.requests == old(store.requests)
    ensures resp.IsSuccess() <==> view.Some?
    ensures !Truthy(auth) ==> resp == Unauthorized(AUTH_REQUIRED) && view.None? && store.users == old(store.users)
    ensures Truthy(auth) && !Truthy(role) ==> resp == BadRequest(ROLE_REQUIRED) && view.None? && store.users == old(store.users)
    ensures Truthy(auth) && Truthy(role) && ToUpper(role.v) !in USER_ROLES ==>
              resp == BadRequest(INVALID_ROLE) && view.None? && store.users == old(store.users)
    ensures Truthy(auth) && Truthy(role) && ToUpper(role.v) in USER_ROLES && auth.v !in old(store.users) ==>
              resp == Internal(INTERNAL) && view.None? && store.users == old(store.users)
    ensures Truthy(auth) && Truthy(role) && ToUpper(role.v) in USER_ROLES && auth.v in old(store.users) ==>
              var u := old(store.users)[auth.v].(role := ToUpper(role.v));
              resp == Respond(OK, RoleUpdatedMessage(role.v)) && view == Some(RoleView(auth.v, u.email, u.role)) &&
              store.users == old(store.users)[auth.v := u]
  {
    if !Truthy(auth) {
      return Unauthorized(AUTH_REQUIRED), None;
    }
    if !Truthy(role) {
      return BadRequest(ROLE_REQUIRED), None;
    }
    var upper := ToUpper(role.v);
    if upper !in USER_ROLES {
      return BadRequest(INVALID_ROLE), None;
    }
    if auth.v !in store.users {
      return Internal(INTERNAL), None;
    }
    var u := store.users[auth.v].(role := upper);
    PutUserConsistent(store.users, store.requests, u);
    store.users := store.users[auth.v := u];
    return Respond(OK, RoleUpdatedMessage(role.v)), Some(RoleView(u.id, u.email, u.role));
  }
}
