/** `changePassword`: an authenticated user replaces a password after presenting the
    current one. */
module ChangePasswordHandler {
  import opened Js
  import opened Http
  import opened Identity

  const USER_NOT_FOUND_AUTH: string := "User not found"
  const FIELDS_REQUIRED: string := "All password fields are required."
  const MISMATCH: string := "New password and confirmation do not match."
  const USER_NOT_FOUND: string := "User not found."
  const WRONG_PASSWORD: string := "Current password is incorrect."
  const CHANGED: string := "Password has been changed successfully."
  /** The bcrypt cost factor of the new hash. */
  const SALT_ROUNDS: int := 12

  /** The user update: the new hash and the clock reading; nothing else. */
  function WithPassword(u: User, hashed: string, now: int): (v: User)
    ensures v.password == hashed && v.updatedAt == now
    ensures v.(password := u.password, updatedAt := u.updatedAt) == u
  {
    u.(password := hashed, updatedAt := now)
  }

  /** `changePassword`. `auth` is the authenticated user's id (falsy when the token did not
      carry one); `compare` and `hash` are bcrypt's. */
  method ChangePassword(store: IdentityStore, auth: Field<string>, currentPassword: Field<string>,
                        newPassword: Field<string>, confirmPassword: Field<string>, now: int,
                        compare: (string, string) -> bool, hash: (string, int) -> string)
    returns (resp: Response)
    requires store.Valid()
    modifies store
    ensures store.Valid() && store.requests == old(store.requests)
    // only a successful change writes
    ensures store.users != old(store.users) ==> resp == Respond(OK, CHANGED)
    ensures !Truthy(auth) ==> resp == Internal(USER_NOT_FOUND_AUTH) && store.users == old(store.users)
    ensures Truthy(auth) && !(Truthy(currentPassword) && Truthy(newPassword) && Truthy(confirmPassword)) ==>
              resp == BadRequest(FIELDS_REQUIRED) && store.users == old(store.users)
    ensures Truthy(auth) && Truthy(currentPassword) && Truthy(newPassword) && Truthy(confirmPassword) &&
            newPassword.v != confirmPassword.v ==>
              resp == BadRequest(MISMATCH) && store.users == old(store.users)
    ensures Truthy(auth) && Truthy(currentPassword) && Truthy(newPassword) && Truthy(confirmPassword) &&
            newPassword.v == confirmPassword.v && auth.v !in old(store.users) ==>
              resp == Unauthorized(USER_NOT_FOUND) && store.users == old(store.users)
    ensures Truthy(auth) && Truthy(currentPassword) && Truthy(newPassword) && Truthy(confirmPassword) &&
            newPassword.v == confirmPassword.v && auth.v in old(store.users) &&
            !compare(currentPassword.v, old(store.users)[auth.v].password) ==>
              resp == Unauthorized(WRONG_PASSWORD) && store.users == old(store.users)
    ensures Truthy(auth) && Truthy(currentPassword) && Truthy(newPassword) && Truthy(confirmPassword) &&
            newPassword.v == confirmPassword.v && auth.v in old(store.users) &&
            compare(currentPassword.v, old(store.users)[auth.v].password) ==>
              resp == Respond(OK, CHANGED) &&
              store.users == old(store.users)[auth.v := WithPassword(old(store.users)[auth.v], hash(newPassword.v, SALT_ROUNDS), now)]
  {
    if !Truthy(auth) {
      return Internal(USER_NOT_FOUND_AUTH);
    }
    if !Truthy(currentPassword) || !Truthy(newPassword) || !Truthy(confirmPassword) {
      return BadRequest(FIELDS_REQUIRED);
    }
    if newPassword.v != confirmPassword.v {
      return BadRequest(MISMATCH);
    }
    if auth.v !in store.users {
      return Unauthorized(USER_NOT_FOUND);
    }
    var existing := store.users[auth.v];
    if !compare(currentPassword.v, existing.password) {
      return Unauthorized(WRONG_PASSWORD);
    }
    var u := WithPassword(existing, hash(newPassword.v, SALT_ROUNDS), now);
    PutUserConsistent(store.users, store.requests, u);
    store.users := store.users[auth.v := u];
    return Respond(OK, CHANGED);
  }
}
