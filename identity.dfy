/** The identity tables: users and the verification ledger (one record per contact
    channel), the constraints the database keeps on them, and the row updates the
    authentication handlers perform. */
module Identity {
  import opened Js
  import opened OtpCode

  type UserId = string

  const CLIENT: string := "CLIENT"
  /** The `UserRole` enumeration. */
  const USER_ROLES: set<string> := {"CLIENT", "VENDOR", "ADMIN"}

  datatype User = User(
    id: UserId,
    firstName: string,
    middleName: Option<string>,
    lastName: string,
    email: Option<string>,
    phone: Option<string>,
    password: string,
    role: string,
    emailVerified: bool,
    phoneVerified: bool,
    updatedAt: int)

  /** The unique column a verification record is found by: its e-mail or its phone. */
  datatype Channel = ByEmail(address: string) | ByPhone(number: string)

  const PENDING: string := "pending"
  const VERIFIED: string := "verified"

  datatype VerificationRequest = VerificationRequest(
    userId: UserId,
    channel: Channel,
    password: string,
    otp: Option<string>,
    otpExpiry: Option<int>,
    status: string,
    verified: bool,
    ipAddress: string,
    idType: string)

  function IdTypeOf(c: Channel): string
  {
    if c.ByEmail? then "EMAIL" else "PHONE"
  }

  /** What every stored record satisfies: it is filed under its own channel, its flag
      and its status agree, and only e-mail records hold a code (the SMS provider keeps
      the code of a phone record). */
  predicate WellFormedRequest(k: Channel, r: VerificationRequest)
  {
    r.channel == k && r.idType == IdTypeOf(k) &&
    (r.status == PENDING || r.status == VERIFIED) && (r.verified <==> r.status == VERIFIED) &&
    (k.ByPhone? ==> r.otp.None? && r.otpExpiry.None?) &&
    (k.ByEmail? ==> r.otp.Some? && r.otpExpiry.Some?)
  }

  /** The unique constraint on `User.email` (null may repeat). */
  predicate EmailsUnique(users: map<UserId, User>)
  {
    forall a, b | a in users && b in users && a != b && users[a].email.Some? :: users[a].email != users[b].email
  }

  /** The unique constraint on `User.phone`. */
  predicate PhonesUnique(users: map<UserId, User>)
  {
    forall a, b | a in users && b in users && a != b && users[a].phone.Some? :: users[a].phone != users[b].phone
  }

  predicate UsersWellFormed(users: map<UserId, User>)
  {
    forall id | id in users :: users[id].id == id && users[id].role in USER_ROLES
  }

  /** The database constraints on both tables, including the record-to-user foreign key. */
  predicate Consistent(users: map<UserId, User>, requests: map<Channel, VerificationRequest>)
  {
    UsersWellFormed(users) && EmailsUnique(users) && PhonesUnique(users) &&
    forall k | k in requests :: WellFormedRequest(k, requests[k]) && requests[k].userId in users
  }

  /** `findUser({ email })` finds a row. */
  predicate HasUserWithEmail(users: map<UserId, User>, e: string)
  {
    exists id | id in users :: users[id].email == Some(e)
  }

  /** `findUser({ phone })` finds a row. */
  predicate HasUserWithPhone(users: map<UserId, User>, p: string)
  {
    exists id | id in users :: users[id].phone == Some(p)
  }

  /** Writing `email` to user `id` keeps the unique constraint on e-mail. */
  predicate EmailFreeFor(users: map<UserId, User>, id: UserId, email: Option<string>)
  {
    email.None? || forall other | other in users && other != id :: users[other].email != email
  }

  /** The user `findUser({ email })` returns. */
  ghost function UserByEmail(users: map<UserId, User>, e: string): (id: UserId)
    requires HasUserWithEmail(users, e)
    ensures id in users && users[id].email == Some(e)
  {
    var id :| id in users && users[id].email == Some(e); id
  }

  /** The user `findUser({ phone })` returns. */
  ghost function UserByPhone(users: map<UserId, User>, p: string): (id: UserId)
    requires HasUserWithPhone(users, p)
    ensures id in users && users[id].phone == Some(p)
  {
    var id :| id in users && users[id].phone == Some(p); id
  }

  /** Under the unique constraints the e-mail and phone lookups have one answer. */
  lemma LookupsUnique(users: map<UserId, User>, id: UserId)
    requires EmailsUnique(users) && PhonesUnique(users) && id in users
    ensures users[id].email.Some? ==> UserByEmail(users, users[id].email.value) == id
    ensures users[id].phone.Some? ==> UserByPhone(users, users[id].phone.value) == id
  {
  }

  /** `findUnique({ where: { email } })` / `({ where: { phone } })` on the ledger. */
  function Lookup(requests: map<Channel, VerificationRequest>, k: Channel): (r: Option<VerificationRequest>)
    ensures r.Some? <==> k in requests
    ensures r.Some? ==> r.value == requests[k]
  {
    if k in requests then Some(requests[k]) else None
  }

  /** The user update of the e-mail verify: the address, the password snapshot and the
      e-mail flag; nothing else. */
  function ConfirmEmail(u: User, e: string, password: string): (v: User)
    ensures v.email == Some(e) && v.password == password && v.emailVerified
    ensures v.id == u.id && v.phone == u.phone && v.role == u.role && v.phoneVerified == u.phoneVerified
    ensures v.(email := u.email, password := u.password, emailVerified := u.emailVerified) == u
  {
    u.(email := Some(e), password := password, emailVerified := true)
  }

  /** The user update of the phone verify: the body's `email` as Prisma writes it (kept
      when undefined, cleared when null), the password snapshot and the phone flag. */
  function ConfirmPhone(u: User, email: Field<string>, password: string): (v: User)
    ensures v.email == Write(u.email, email) && v.password == password && v.phoneVerified
    ensures v.id == u.id && v.phone == u.phone && v.role == u.role && v.emailVerified == u.emailVerified
    ensures v.(email := u.email, password := u.password, phoneVerified := u.phoneVerified) == u
  {
    u.(email := Write(u.email, email), password := password, phoneVerified := true)
  }

  /** The tables, updated in place by the handlers. */
  class IdentityStore {
    var users: map<UserId, User>
    var requests: map<Channel, VerificationRequest>

    ghost predicate Valid()
      reads this
    {
      Consistent(users, requests)
    }

    constructor()
      ensures Valid() && users == map[] && requests == map[]
    {
      users := map[];
      requests := map[];
    }
  }

  /** The phone upsert of the send handler: the update writes status, flag, ip, id type,
      owner and password snapshot; the create also writes the phone. No code is written
      in either case. */
  function PhoneUpsert(existing: Option<VerificationRequest>, number: string, userId: UserId,
                       password: string, ip: string): (r: VerificationRequest)
    requires existing.Some? ==> WellFormedRequest(ByPhone(number), existing.value)
    ensures WellFormedRequest(ByPhone(number), r)
    ensures r.userId == userId && r.password == password && r.ipAddress == ip
    ensures r.status == PENDING && !r.verified
  {
    match existing
    case None => VerificationRequest(userId, ByPhone(number), password, None, None, PENDING, false, ip, "PHONE")
    case Some(prev) =>
      prev.(status := PENDING, verified := false, ipAddress := ip, idType := "PHONE", userId := userId,
           password := password)
  }

  /** The e-mail upsert of the send handler: a fresh code and expiry either way; the id
      type is written only when the record is created. */
  function EmailUpsert(existing: Option<VerificationRequest>, address: string, userId: UserId,
                       password: string, ip: string, code: string, expiry: int): (r: VerificationRequest)
    requires existing.Some? ==> WellFormedRequest(ByEmail(address), existing.value)
    ensures WellFormedRequest(ByEmail(address), r)
    ensures r.userId == userId && r.password == password && r.ipAddress == ip
    ensures r.otp == Some(code) && r.otpExpiry == Some(expiry)
    ensures r.status == PENDING && !r.verified
  {
    match existing
    case None => VerificationRequest(userId, ByEmail(address), password, Some(code), Some(expiry), PENDING, false, ip, "EMAIL")
    case Some(prev) =>
      prev.(password := password, otp := Some(code), otpExpiry := Some(expiry), status := PENDING,
           verified := false, userId := userId, ipAddress := ip)
  }

  /** `update({ verified: true, status: "verified" })`. */
  function MarkVerified(r: VerificationRequest): (v: VerificationRequest)
    ensures v.verified && v.status == VERIFIED
    ensures v.otp == r.otp && v.otpExpiry == r.otpExpiry && v.userId == r.userId && v.password == r.password
    ensures WellFormedRequest(r.channel, r) ==> WellFormedRequest(r.channel, v)
  {
    r.(verified := true, status := VERIFIED)
  }

  /** The e-mail resend: a new code and expiry, back to pending. */
  function Reissue(r: VerificationRequest, code: string, expiry: int): (v: VerificationRequest)
    ensures v.otp == Some(code) && v.otpExpiry == Some(expiry) && v.status == PENDING && !v.verified
    ensures v.userId == r.userId && v.password == r.password && v.channel == r.channel
    ensures WellFormedRequest(r.channel, r) && r.channel.ByEmail? ==> WellFormedRequest(r.channel, v)
  {
    r.(otp := Some(code), otpExpiry := Some(expiry), status := PENDING, verified := false)
  }

  /** The phone resend: only status and flag change. */
  function Reopen(r: VerificationRequest): (v: VerificationRequest)
    ensures v.status == PENDING && !v.verified
    ensures v.otp == r.otp && v.otpExpiry == r.otpExpiry && v.userId == r.userId && v.password == r.password
    ensures WellFormedRequest(r.channel, r) ==> WellFormedRequest(r.channel, v)
  {
    r.(status := PENDING, verified := false)
  }

  /** The e-mail verify check: the stored code equals the submitted one and the clock has
      not passed the expiry. The verified flag is not part of it. */
  predicate OtpAccepted(r: VerificationRequest, otp: string, now: int)
  {
    r.otp == Some(otp) && r.otpExpiry.Some? && now <= r.otpExpiry.value
  }

  /** After an e-mail send at time `t`, the record accepts exactly the code that was
      drawn, until five minutes have passed. */
  lemma SentCodeWindow(existing: Option<VerificationRequest>, address: string, userId: UserId, password: string,
                       ip: string, draw: nat, t: int, code: string, now: int)
    requires existing.Some? ==> WellFormedRequest(ByEmail(address), existing.value)
    ensures OtpAccepted(EmailUpsert(existing, address, userId, password, ip, OtpString(draw), GetOtpExpiry(t, 5)), code, now)
            <==> code == OtpString(draw) && now <= t + 300000
  {
  }

  /** A resend replaces the code: a code drawn before is accepted afterwards only if the
      new draw produced the same number. */
  lemma ReissueReplacesCode(r: VerificationRequest, d1: nat, d2: nat, expiry: int, now: int)
    requires OtpAccepted(Reissue(r, OtpString(d2), expiry), OtpString(d1), now)
    ensures GenerateOtp(d1) == GenerateOtp(d2)
  {
    if GenerateOtp(d1) != GenerateOtp(d2) {
      OtpStringInjective(d1, d2);
    }
  }

  /** Marking a record verified keeps its code and expiry, so the same code is accepted
      again until it expires. */
  lemma VerifiedCodeStillAccepted(r: VerificationRequest, otp: string, now: int)
    ensures OtpAccepted(MarkVerified(r), otp, now) == OtpAccepted(r, otp, now)
  {
  }

  /** Storing a well-formed record owned by an existing user keeps the tables consistent. */
  lemma PutRequestConsistent(users: map<UserId, User>, requests: map<Channel, VerificationRequest>,
                             k: Channel, r: VerificationRequest)
    requires Consistent(users, requests)
    requires WellFormedRequest(k, r) && r.userId in users
    ensures Consistent(users, requests[k := r])
  {
  }

  /** Replacing a user row by one with the same id, phone and a valid role and an e-mail
      nobody else holds keeps the tables consistent. */
  lemma {:induction false} PutUserConsistent(users: map<UserId, User>, requests: map<Channel, VerificationRequest>,
                                            u: User)
    requires Consistent(users, requests)
    requires u.id in users && u.role in USER_ROLES && u.phone == users[u.id].phone
    requires EmailFreeFor(users, u.id, u.email)
    ensures Consistent(users[u.id := u], requests)
  {
    var users' := users[u.id := u];
    forall a, b | a in users' && b in users' && a != b && users'[a].email.Some?
      ensures users'[a].email != users'[b].email
    {
      if a == u.id {
        assert users'[b] == users[b];
      } else if b == u.id {
        assert users'[a] == users[a];
      }
    }
    forall a, b | a in users' && b in users' && a != b && users'[a].phone.Some?
      ensures users'[a].phone != users'[b].phone
    {
    }
  }

  /** Adding a user with a fresh id, a valid role, no phone and an e-mail nobody holds
      keeps the tables consistent. */
  lemma AddUserConsistent(users: map<UserId, User>, requests: map<Channel, VerificationRequest>, u: User)
    requires Consistent(users, requests)
    requires u.id !in users && u.role in USER_ROLES && u.phone.None?
    requires u.email.None? || !HasUserWithEmail(users, u.email.value)
    ensures Consistent(users[u.id := u], requests)
  {
    var users' := users[u.id := u];
    forall a, b | a in users' && b in users' && a != b && users'[a].email.Some?
      ensures users'[a].email != users'[b].email
    {
      if a == u.id {
        assert users'[b] == users[b];
      }
    }
  }
}
