/** The three OTP handlers: send a code by e-mail (or hand the phone to the SMS
    provider), verify it, and resend it. Each reads and writes the identity tables; what
    was sent out is returned as a `Delivery`. */
module OtpHandlers {
  import opened Js
  import opened Http
  import opened OtpCode
  import opened Validations
  import opened Identity
  import Termii

  const NO_CONTACT: string := "Either email or phone number is required."
  const NO_USER_PHONE: string := "No user found with this phone."
  const NO_USER_EMAIL: string := "No user found with this email."
  const INVALID_EMAIL: string := "Invalid email format."
  const EMAIL_SENT: string := "OTP has been sent to your email. Please check your inbox and verify."
  const MAIL_FAILED: string := "Failed to send OTP email. Please try again later."
  const EMAIL_OTP_REQUIRED: string := "Email and OTP are required"
  const INVALID_OR_EXPIRED: string := "Invalid or expired OTP."
  const EMAIL_CONFIRMED: string := "OTP verified successfully. Your email is now confirmed."
  const PHONE_CONFIRMED: string := "OTP verified successfully. Your phone is now confirmed."
  const VERIFY_FAILED: string := "Internal server error during OTP verification"
  const TOKEN_REQUIRED: string := "OTP and token are required for phone verification."
  const REQUEST_NOT_FOUND: string := "Verification request not found."
  const NO_OTP_REQUEST: string := "No OTP request found. Please restart the onboarding process."
  const ALREADY_VERIFIED: string := "OTP has already been verified"
  const RESENT_EMAIL: string := "New OTP has been sent to your email. Please check your inbox and verify."
  const RESENT_PHONE: string := "OTP resent successfully to your phone."
  const OTP_MINUTES: int := 5

  /** What a handler sent out: nothing, an SMS request to the provider for a number, or
      the welcome e-mail carrying a code to an address. */
  datatype Delivery = NoDelivery | Sms(to: string) | OtpMail(recipient: Option<string>, code: string)

  /** The common guard: neither an e-mail nor a phone with non-blank text. */
  predicate NoContact(email: Field<string>, phone: Field<string>)
  {
    Blank(email) && Blank(phone)
  }

  /** Past the guard, a falsy e-mail means the phone is truthy: the phone branches of the
      verify and resend handlers are reached whenever the e-mail branch is not. */
  lemma PhoneAfterGuard(email: Field<string>, phone: Field<string>)
    requires !NoContact(email, phone) && !Truthy(email)
    ensures Truthy(phone) && Trim(phone.v) != ""
  {
  }

  /** The message of `new BadRequestError(response.message || fallback)`: the fallback
      replaces only an empty text. An error object is truthy, so it is passed on and
      becomes its `String` conversion. */
  function Reported(m: Termii.VerifyMessage, fallback: string): (s: string)
    ensures (m.Text? && m.text != "") || m.Thrown? ==> s == Termii.MessageText(m)
    ensures m.Text? && m.text == "" ==> s == fallback
  {
    match m
    case Text(t) => Or(t, fallback)
    case Thrown(e) => ErrorString(e)
  }

  /** A failed verify is reported by its own message whatever the fallback: the text
      of a coded error is never empty and an error object is never falsy. */
  lemma VerifyFallbackUnused(token: Field<string>, otp: Field<string>, reply: Termii.VerifyReply, fallback: string)
    requires Termii.VerifyOtp(token, otp, reply).VerifyError?
    ensures Reported(Termii.VerifyOtp(token, otp, reply).message, fallback) ==
            Termii.MessageText(Termii.VerifyOtp(token, otp, reply).message)
  {
  }

  /** An SMS the provider did not report as sent is answered with the text of the
      error `sendOTP` threw, prefixed by its name, whichever fallback the handler
      names: the resend handler's "Failed to resend OTP" is never used. */
  lemma SmsStatusFailureText(phone: Field<string>, country: Field<string>, sms: Termii.SendReply, fallback: string)
    requires Truthy(phone) && Truthy(country) && sms.Sent? && sms.smsStatus != Termii.MESSAGE_SENT
    ensures Reported(Termii.Thrown(Termii.SendOtp(phone, country, sms).error), fallback) == "Error: " + Termii.SEND_FAILED
  {
    NewErrorStringPrefixed(Termii.SEND_FAILED);
  }

  /** `sendOTPHandler`. */
  method SendOtp(store: IdentityStore, email: Field<string>, phone: Field<string>, country: Field<string>,
                 ip: string, now: int, draw: nat, sms: Termii.SendReply, mailDelivered: bool)
    returns (resp: Response, delivery: Delivery)
    requires store.Valid()
    modifies store
    ensures store.Valid() && store.users == old(store.users)
    ensures NoContact(email, phone) ==>
              resp == BadRequest(NO_CONTACT) && delivery == NoDelivery && store.requests == old(store.requests)
    // phone branch: the raw number goes to the provider before the user is looked up
    ensures !NoContact(email, phone) && Truthy(phone) && Truthy(country) ==> delivery == Sms(phone.v)
    ensures !NoContact(email, phone) && Truthy(phone) && Truthy(country) &&
            Termii.SendOtp(phone, country, sms).SendError? ==>
              resp == BadRequest(ErrorString(Termii.SendOtp(phone, country, sms).error)) &&
              store.requests == old(store.requests)
    ensures !NoContact(email, phone) && Truthy(phone) && Truthy(country) &&
            Termii.SendOtp(phone, country, sms).SendOk? && !HasUserWithPhone(old(store.users), phone.v) ==>
              resp == BadRequest(NO_USER_PHONE) && store.requests == old(store.requests)
    ensures !NoContact(email, phone) && Truthy(phone) && Truthy(country) &&
            Termii.SendOtp(phone, country, sms).SendOk? && HasUserWithPhone(old(store.users), phone.v) ==>
              var id := UserByPhone(old(store.users), phone.v);
              var k := ByPhone(phone.v);
              resp == Respond(OK, "") &&
              store.requests == old(store.requests)[k := PhoneUpsert(Lookup(old(store.requests), k), phone.v, id,
                                                                    old(store.users)[id].password, ip)]
    // e-mail branch, taken when the phone branch is not
    ensures !NoContact(email, phone) && !(Truthy(phone) && Truthy(country)) && Truthy(email) &&
            !IsValidEmail(email.v) ==>
              resp == BadRequest(INVALID_EMAIL) && delivery == NoDelivery && store.requests == old(store.requests)
    ensures !NoContact(email, phone) && !(Truthy(phone) && Truthy(country)) && Truthy(email) &&
            IsValidEmail(email.v) && !HasUserWithEmail(old(store.users), email.v) ==>
              resp == BadRequest(NO_USER_EMAIL) && delivery == NoDelivery && store.requests == old(store.requests)
    ensures !NoContact(email, phone) && !(Truthy(phone) && Truthy(country)) && Truthy(email) &&
            IsValidEmail(email.v) && HasUserWithEmail(old(store.users), email.v) ==>
              var id := UserByEmail(old(store.users), email.v);
              var k := ByEmail(email.v);
              delivery == OtpMail(Some(email.v), OtpString(draw)) &&
              store.requests == old(store.requests)[k := EmailUpsert(Lookup(old(store.requests), k), email.v, id,
                                                                    old(store.users)[id].password, ip, OtpString(draw),
                                                                    GetOtpExpiry(now, OTP_MINUTES))] &&
              // a failed e-mail leaves the new code stored
              resp == if mailDelivered then Respond(CREATED, EMAIL_SENT) else Internal(MAIL_FAILED)
    // a phone without a country and no e-mail: the handler never answers
    ensures !NoContact(email, phone) && !(Truthy(phone) && Truthy(country)) && !Truthy(email) ==>
              resp == NoResponse && delivery == NoDelivery && store.requests == old(store.requests)
  {
    if NoContact(email, phone) {
      return BadRequest(NO_CONTACT), NoDelivery;
    }
    if Truthy(phone) && Truthy(country) {
      delivery := Sms(phone.v);
      var sent := Termii.SendOtp(phone, country, sms);
      if sent.SendError? {
        return BadRequest(Reported(Termii.Thrown(sent.error), "Failed to send OTP")), delivery;
      }
      if !HasUserWithPhone(store.users, phone.v) {
        return BadRequest(NO_USER_PHONE), delivery;
      }
      var id :| id in store.users && store.users[id].phone == Some(phone.v);
      LookupsUnique(store.users, id);
      var k := ByPhone(phone.v);
      var rec := PhoneUpsert(Lookup(store.requests, k), phone.v, id, store.users[id].password, ip);
      PutRequestConsistent(store.users, store.requests, k, rec);
      store.requests := store.requests[k := rec];
      return Respond(OK, ""), delivery;
    }
    if Truthy(email) {
      if !IsValidEmail(email.v) {
        return BadRequest(INVALID_EMAIL), NoDelivery;
      }
      if !HasUserWithEmail(store.users, email.v) {
        return BadRequest(NO_USER_EMAIL), NoDelivery;
      }
      var id :| id in store.users && store.users[id].email == Some(email.v);
      LookupsUnique(store.users, id);
      var code := OtpString(draw);
      var k := ByEmail(email.v);
      var rec := EmailUpsert(Lookup(store.requests, k), email.v, id, store.users[id].password, ip, code,
                             GetOtpExpiry(now, OTP_MINUTES));
      PutRequestConsistent(store.users, store.requests, k, rec);
      store.requests := store.requests[k := rec];
      delivery := OtpMail(store.users[id].email, code);
      if !mailDelivered {
        return Internal(MAIL_FAILED), delivery;
      }
      return Respond(CREATED, EMAIL_SENT), delivery;
    }
    return NoResponse, NoDelivery;
  }

  /** `verifyOtpHandler`. */
  method VerifyOtp(store: IdentityStore, email: Field<string>, phone: Field<string>, otp: Field<string>,
                   token: Field<string>, now: int, reply: Termii.VerifyReply)
    returns (resp: Response)
    requires store.Valid()
    modifies store
    ensures store.Valid()
    ensures NoContact(email, phone) ==>
              resp == BadRequest(NO_CONTACT) && store.users == old(store.users) && store.requests == old(store.requests)
    // e-mail branch
    ensures !NoContact(email, phone) && Truthy(email) && !Truthy(otp) ==>
              resp == BadRequest(EMAIL_OTP_REQUIRED) &&
              store.users == old(store.users) && store.requests == old(store.requests)
    // a missing record, a wrong code and an expired code get the same answer
    ensures !NoContact(email, phone) && Truthy(email) && Truthy(otp) &&
            !(ByEmail(email.v) in old(store.requests) && OtpAccepted(old(store.requests)[ByEmail(email.v)], otp.v, now)) ==>
              resp == NotFound(INVALID_OR_EXPIRED) &&
              store.users == old(store.users) && store.requests == old(store.requests)
    ensures !NoContact(email, phone) && Truthy(email) && Truthy(otp) &&
            ByEmail(email.v) in old(store.requests) && OtpAccepted(old(store.requests)[ByEmail(email.v)], otp.v, now) ==>
              var rec := old(store.requests)[ByEmail(email.v)];
              store.requests == old(store.requests)[ByEmail(email.v) := MarkVerified(rec)] &&
              if EmailFreeFor(old(store.users), rec.userId, Some(email.v)) then
                resp == Respond(OK, EMAIL_CONFIRMED) &&
                store.users == old(store.users)[rec.userId := ConfirmEmail(old(store.users)[rec.userId], email.v, rec.password)]
              else
                // the unique e-mail constraint rejects the user update; the record update stays
                resp == Internal(VERIFY_FAILED) && store.users == old(store.users)
    // phone branch
    ensures !NoContact(email, phone) && !Truthy(email) && Truthy(phone) && (!Truthy(otp) || !Truthy(token)) ==>
              resp == BadRequest(TOKEN_REQUIRED) &&
              store.users == old(store.users) && store.requests == old(store.requests)
    ensures !NoContact(email, phone) && !Truthy(email) && Truthy(phone) && Truthy(otp) && Truthy(token) &&
            Termii.VerifyOtp(token, otp, reply).Status() != Termii.VERIFIED ==>
              resp == BadRequest(Termii.MessageText(Termii.VerifyOtp(token, otp, reply).message)) &&
              store.users == old(store.users) && store.requests == old(store.requests)
    ensures !NoContact(email, phone) && !Truthy(email) && Truthy(phone) && Truthy(otp) && Truthy(token) &&
            Termii.VerifyOtp(token, otp, reply).Status() == Termii.VERIFIED && ByPhone(phone.v) !in old(store.requests) ==>
              resp == NotFound(REQUEST_NOT_FOUND) &&
              store.users == old(store.users) && store.requests == old(store.requests)
    ensures !NoContact(email, phone) && !Truthy(email) && Truthy(phone) && Truthy(otp) && Truthy(token) &&
            Termii.VerifyOtp(token, otp, reply).Status() == Termii.VERIFIED && ByPhone(phone.v) in old(store.requests) ==>
              var rec := old(store.requests)[ByPhone(phone.v)];
              var u := ConfirmPhone(old(store.users)[rec.userId], email, rec.password);
              store.requests == old(store.requests)[ByPhone(phone.v) := MarkVerified(rec)] &&
              if EmailFreeFor(old(store.users), rec.userId, u.email) then
                resp == Respond(OK, PHONE_CONFIRMED) && store.users == old(store.users)[rec.userId := u]
              else
                resp == Internal(VERIFY_FAILED) && store.users == old(store.users)
  {
    if NoContact(email, phone) {
      return BadRequest(NO_CONTACT);
    }
    if Truthy(email) {
      if !Truthy(otp) {
        return BadRequest(EMAIL_OTP_REQUIRED);
      }
      var k := ByEmail(email.v);
      if k !in store.requests || !OtpAccepted(store.requests[k], otp.v, now) {
        return NotFound(INVALID_OR_EXPIRED);
      }
      var rec := store.requests[k];
      PutRequestConsistent(store.users, store.requests, k, MarkVerified(rec));
      store.requests := store.requests[k := MarkVerified(rec)];
      var u := ConfirmEmail(store.users[rec.userId], email.v, rec.password);
      if !EmailFreeFor(store.users, rec.userId, u.email) {
        return Internal(VERIFY_FAILED);
      }
      PutUserConsistent(store.users, store.requests, u);
      store.users := store.users[rec.userId := u];
      return Respond(OK, EMAIL_CONFIRMED);
    }
    PhoneAfterGuard(email, phone);
    if !Truthy(otp) || !Truthy(token) {
      return BadRequest(TOKEN_REQUIRED);
    }
    var checked := Termii.VerifyOtp(token, otp, reply);
    if checked.Status() != Termii.VERIFIED {
      return BadRequest(Reported(checked.message, "OTP verification failed"));
    }
    var k := ByPhone(phone.v);
    if k !in store.requests {
      return NotFound(REQUEST_NOT_FOUND);
    }
    var rec := store.requests[k];
    PutRequestConsistent(store.users, store.requests, k, MarkVerified(rec));
    store.requests := store.requests[k := MarkVerified(rec)];
    var u := ConfirmPhone(store.users[rec.userId], email, rec.password);
    if !EmailFreeFor(store.users, rec.userId, u.email) {
      return Internal(VERIFY_FAILED);
    }
    PutUserConsistent(store.users, store.requests, u);
    store.users := store.users[rec.userId := u];
    return Respond(OK, PHONE_CONFIRMED);
  }

  /** `resendOTPHandler`. */
  method ResendOtp(store: IdentityStore, email: Field<string>, phone: Field<string>, country: Field<string>,
                   now: int, draw: nat, sms: Termii.SendReply, mailDelivered: bool)
    returns (resp: Response, delivery: Delivery)
    requires store.Valid()
    modifies store
    ensures store.Valid() && store.users == old(store.users)
    ensures NoContact(email, phone) ==>
              resp == BadRequest(NO_CONTACT) && delivery == NoDelivery && store.requests == old(store.requests)
    // e-mail branch
    ensures !NoContact(email, phone) && Truthy(email) && ByEmail(email.v) !in old(store.requests) ==>
              resp == NotFound(NO_OTP_REQUEST) && delivery == NoDelivery && store.requests == old(store.requests)
    ensures !NoContact(email, phone) && Truthy(email) && ByEmail(email.v) in old(store.requests) &&
            old(store.requests)[ByEmail(email.v)].verified ==>
              resp == BadRequest(ALREADY_VERIFIED) && delivery == NoDelivery && store.requests == old(store.requests)
    ensures !NoContact(email, phone) && Truthy(email) && ByEmail(email.v) in old(store.requests) &&
            !old(store.requests)[ByEmail(email.v)].verified ==>
              var rec := old(store.requests)[ByEmail(email.v)];
              store.requests == old(store.requests)[ByEmail(email.v) := Reissue(rec, OtpString(draw), GetOtpExpiry(now, OTP_MINUTES))] &&
              // the code goes to the owner's current address
              delivery == OtpMail(old(store.users)[rec.userId].email, OtpString(draw)) &&
              resp == if mailDelivered then Respond(OK, RESENT_EMAIL) else Internal(MAIL_FAILED)
    // phone branch: a new SMS is requested before the record is looked up
    ensures !NoContact(email, phone) && !Truthy(email) && Truthy(phone) && Truthy(country) ==> delivery == Sms(phone.v)
    ensures !NoContact(email, phone) && !Truthy(email) && Truthy(phone) && Truthy(country) &&
            Termii.SendOtp(phone, country, sms).SendError? ==>
              resp == BadRequest(ErrorString(Termii.SendOtp(phone, country, sms).error)) &&
              store.requests == old(store.requests)
    ensures !NoContact(email, phone) && !Truthy(email) && Truthy(phone) && Truthy(country) &&
            Termii.SendOtp(phone, country, sms).SendOk? && ByPhone(phone.v) !in old(store.requests) ==>
              resp == NotFound(NO_OTP_REQUEST) && store.requests == old(store.requests)
    ensures !NoContact(email, phone) && !Truthy(email) && Truthy(phone) && Truthy(country) &&
            Termii.SendOtp(phone, country, sms).SendOk? && ByPhone(phone.v) in old(store.requests) &&
            old(store.requests)[ByPhone(phone.v)].verified ==>
              resp == BadRequest(ALREADY_VERIFIED) && store.requests == old(store.requests)
    ensures !NoContact(email, phone) && !Truthy(email) && Truthy(phone) && Truthy(country) &&
            Termii.SendOtp(phone, country, sms).SendOk? && ByPhone(phone.v) in old(store.requests) &&
            !old(store.requests)[ByPhone(phone.v)].verified ==>
              resp == Respond(OK, RESENT_PHONE) &&
              store.requests == old(store.requests)[ByPhone(phone.v) := Reopen(old(store.requests)[ByPhone(phone.v)])]
    // a phone without a country and no e-mail: the handler never answers
    ensures !NoContact(email, phone) && !Truthy(email) && !(Truthy(phone) && Truthy(country)) ==>
              resp == NoResponse && delivery == NoDelivery && store.requests == old(store.requests)
  {
    if NoContact(email, phone) {
      return BadRequest(NO_CONTACT), NoDelivery;
    }
    if Truthy(email) {
      var k := ByEmail(email.v);
      if k !in store.requests {
        return NotFound(NO_OTP_REQUEST), NoDelivery;
      }
      var rec := store.requests[k];
      if rec.verified {
        return BadRequest(ALREADY_VERIFIED), NoDelivery;
      }
      var code := OtpString(draw);
      var rec' := Reissue(rec, code, GetOtpExpiry(now, OTP_MINUTES));
      PutRequestConsistent(store.users, store.requests, k, rec');
      store.requests := store.requests[k := rec'];
      delivery := OtpMail(store.users[rec.userId].email, code);
      if !mailDelivered {
        return Internal(MAIL_FAILED), delivery;
      }
      return Respond(OK, RESENT_EMAIL), delivery;
    }
    if Truthy(phone) && Truthy(country) {
      delivery := Sms(phone.v);
      var sent := Termii.SendOtp(phone, country, sms);
      if sent.SendError? {
        return BadRequest(Reported(Termii.Thrown(sent.error), "Failed to resend OTP")), delivery;
      }
      var k := ByPhone(phone.v);
      if k !in store.requests {
        return NotFound(NO_OTP_REQUEST), delivery;
      }
      var rec := store.requests[k];
      if rec.verified {
        return BadRequest(ALREADY_VERIFIED), delivery;
      }
      PutRequestConsistent(store.users, store.requests, k, Reopen(rec));
      store.requests := store.requests[k := Reopen(rec)];
      return Respond(OK, RESENT_PHONE), delivery;
    }
    return NoResponse, NoDelivery;
  }
}
