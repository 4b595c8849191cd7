/** `signUp`: creates the user row from the request body, with the password hashed and
    the role resolved against the `UserRole` enumeration. */
module SignUpHandler {
  import opened Js
  import opened Http
  import opened Validations
  import opened Identity

  const MISSING_FIELDS: string := "Missing required fields."
  const INVALID_EMAIL: string := "Invalid email format."
  const INTERNAL: string := "Internal server error"
  /** The bcrypt cost factor of the sign-up hash. */
  const SALT_ROUNDS: int := 10

  /** A user row without its password, as the handler answers it. */
  datatype UserView = UserView(
    id: UserId,
    firstName: string,
    middleName: Option<string>,
    lastName: string,
    email: Option<string>,
    phone: Option<string>,
    role: string,
    emailVerified: bool,
    phoneVerified: bool,
    updatedAt: int)

  /** The answered user: every column of the row except the password. */
  function WithoutPassword(u: User): (v: UserView)
    ensures v.id == u.id && v.firstName == u.firstName && v.middleName == u.middleName && v.lastName == u.lastName
    ensures v.email == u.email && v.phone == u.phone && v.role == u.role
    ensures v.emailVerified == u.emailVerified && v.phoneVerified == u.phoneVerified && v.updatedAt == u.updatedAt
  {
    UserView(u.id, u.firstName, u.middleName, u.lastName, u.email, u.phone, u.role,
             u.emailVerified, u.phoneVerified, u.updatedAt)
  }

  /** Nothing of the password, plain or hashed, reaches the answer. */
  lemma WithoutPasswordIgnoresPassword(u: User, p: string)
    ensures WithoutPassword(u.(password := p)) == WithoutPassword(u)
  {
  }

  /** The role of the new user: the upper-cased request value when it names a role,
      CLIENT otherwise. */
  function ResolveRole(role: Field<string>): (r: string)
    ensures r in USER_ROLES
    ensures Truthy(role) && ToUpper(role.v) in USER_ROLES ==> r == ToUpper(role.v)
    ensures !(Truthy(role) && ToUpper(role.v) in USER_ROLES) ==> r == CLIENT
  {
    if Truthy(role) && ToUpper(role.v) in USER_ROLES then ToUpper(role.v) else CLIENT
  }

  /** The role is matched without regard to case. */
  lemma ResolveRoleIgnoresCase(s: string)
    ensures ResolveRole(Value(s)) == ResolveRole(Value(ToUpper(s)))
  {
    ToUpperIdempotent(s);
    assert |ToUpper(s)| == |s|;
  }

  /** Every role names itself. */
  lemma ResolveRoleOfRole(r: string)
    requires r in USER_ROLES
    ensures ResolveRole(Value(r)) == r
  {
    assert r == "CLIENT" || r == "VENDOR" || r == "ADMIN";
    forall i | 0 <= i < |r| ensures ToUpperChar(r[i]) == r[i] {
      assert 'A' <= r[i] <= 'Z';
    }
    UpperUnchanged(r);
  }

  /** The row the handler asks the database to create. */
  function NewUser(id: UserId, firstName: string, middleName: Field<string>, lastName: string, email: string,
                   hashed: string, role: Field<string>, now: int): (u: User)
    ensures u.id == id && u.email == Some(email) && u.password == hashed && u.role in USER_ROLES
    ensures u.phone.None? && !u.emailVerified && !u.phoneVerified
    ensures u.middleName == Write(None, middleName)
  {
    User(id, firstName, Write(None, middleName), lastName, Some(email), None, hashed, ResolveRole(role),
         false, false, now)
  }

  /** `signUp`. `hash` is bcrypt's hash function; `newId` is the id the database assigns. */
  method SignUp(store: IdentityStore, firstName: Field<string>, middleName: Field<string>, lastName: Field<string>,
                email: Field<string>, password: Field<string>, role: Field<string>, now: int,
                newId: UserId, hash: (string, int) -> string)
    returns (resp: Response, created: Option<UserView>)
    requires store.Valid() && newId !in store.users
    modifies store
    ensures store.Valid() && store.requests == old(store.requests)
    ensures resp.IsSuccess() <==> created.Some?
    ensures !(Truthy(firstName) && Truthy(lastName) && Truthy(email) && Truthy(password)) ==>
              resp == BadRequest(MISSING_FIELDS) && created.None? && store.users == old(store.users)
    ensures Truthy(firstName) && Truthy(lastName) && Truthy(email) && Truthy(password) && !IsValidEmail(email.v) ==>
              resp == BadRequest(INVALID_EMAIL) && created.None? && store.users == old(store.users)
    // the unique e-mail constraint rejects a second account for an address
    ensures Truthy(firstName) && Truthy(lastName) && Truthy(email) && Truthy(password) && IsValidEmail(email.v) &&
            HasUserWithEmail(old(store.users), email.v) ==>
              resp == Internal(INTERNAL) && created.None? && store.users == old(store.users)
    ensures Truthy(firstName) && Truthy(lastName) && Truthy(email) && Truthy(password) && IsValidEmail(email.v) &&
            !HasUserWithEmail(old(store.users), email.v) ==>
              var u := NewUser(newId, firstName.v, middleName, lastName.v, email.v, hash(password.v, SALT_ROUNDS), role, now);
              resp == Respond(CREATED, "") && created == Some(WithoutPassword(u)) &&
              store.users == old(store.users)[newId := u]
  {
    if !Truthy(firstName) || !Truthy(lastName) || !Truthy(email) || !Truthy(password) {
      return BadRequest(MISSING_FIELDS), None;
    }
    if !IsValidEmail(email.v) {
      return BadRequest(INVALID_EMAIL), None;
    }
    var hashed := hash(password.v, SALT_ROUNDS);
    if HasUserWithEmail(store.users, email.v) {
      return Internal(INTERNAL), None;
    }
    var u := NewUser(newId, firstName.v, middleName, lastName.v, email.v, hashed, role, now);
    AddUserConsistent(store.users, store.requests, u);
    store.users := store.users[newId := u];
    return Respond(CREATED, ""), Some(WithoutPassword(u));
  }
}
