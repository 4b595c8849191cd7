/** The SMS one-time-password wrapper around the Termii provider: `sendOTP` and
    `verifyOTP` turn the provider's answer (or its failure) into a result object the
    handlers inspect. The HTTP calls themselves are parameters: the provider's reply. */
module Termii {
  import opened Js

  const MESSAGE_SENT: string := "Message Sent"
  const VERIFIED: string := "verified"
  const SEND_ARGS_REQUIRED: string := "Phone number and country are required"
  const SEND_FAILED: string := "Failed to send OTP"
  const VERIFY_ARGS_REQUIRED: string := "Token and OTP are required"
  const VERIFY_DEFAULT: string := "Failed to verify OTP"

  /** The provider's answer to the send call, or the error the call threw. */
  datatype SendReply = Sent(pinId: string, to: string, smsStatus: string) | SendThrew(error: ErrorObject)

  /** `OTPResponse | OTPError`: the `message` of an error result is the caught error
      object itself, not its text. */
  datatype SendResult = SendOk(status: string, phoneNumber: string, tokenId: string) | SendError(error: ErrorObject)

  /** `sendOTP(phone, country)`. Every failure, its own checks included, is thrown and
      caught, so an error result always carries an error object. */
  function SendOtp(phone: Field<string>, country: Field<string>, reply: SendReply): (r: SendResult)
    // success exactly when both arguments are given and the provider reports the SMS sent
    ensures r.SendOk? <==> Truthy(phone) && Truthy(country) && reply.Sent? && reply.smsStatus == MESSAGE_SENT
    // a success carries the provider's pin id and destination
    ensures r.SendOk? ==> r.status == MESSAGE_SENT && r.phoneNumber == reply.to && r.tokenId == reply.pinId
    ensures !(Truthy(phone) && Truthy(country)) ==> r == SendError(NewError(SEND_ARGS_REQUIRED))
    ensures Truthy(phone) && Truthy(country) && reply.Sent? && reply.smsStatus != MESSAGE_SENT ==>
              r == SendError(NewError(SEND_FAILED))
    // an error of the provider call is passed on as it was thrown
    ensures Truthy(phone) && Truthy(country) && reply.SendThrew? ==> r == SendError(reply.error)
  {
    if !Truthy(phone) || !Truthy(country) then SendError(NewError(SEND_ARGS_REQUIRED))
    else match reply
      case SendThrew(e) => SendError(e)
      case Sent(pinId, to, smsStatus) =>
        if smsStatus != MESSAGE_SENT then SendError(NewError(SEND_FAILED))
        else SendOk(smsStatus, to, pinId)
  }

  /** The number handed to the provider: the phone exactly as the caller gave it; no
      international formatting is applied on this path. */
  function SendDestination(phone: Field<string>, country: Field<string>): (r: Option<string>)
    ensures r.Some? <==> Truthy(phone) && Truthy(country)
    ensures r.Some? ==> r.value == phone.v
  {
    if Truthy(phone) && Truthy(country) then Some(phone.v) else None
  }

  /** The provider's answer to the verify call: `verified` is the string "True" or
      "False" (or missing, written ""), `message` is "" when absent. `VerifyThrew` is a
      failure that escapes `verifyWithTermii` itself (its catch reads `error.response`,
      which a request that got no response lacks); such an error has no `code`. */
  datatype VerifyReply =
    | Checked(pinId: string, verified: string, msisdn: string, message: string, code: Option<int>)
    | VerifyThrew(error: ErrorObject)

  /** The `message` of an error result: the caught error's text when the error has a
      `code`, otherwise the caught error object itself. */
  datatype VerifyMessage = Text(text: string) | Thrown(error: ErrorObject)

  /** The text a message stands for: the string itself, or `String(error)`. */
  function MessageText(m: VerifyMessage): string
  {
    match m
    case Text(t) => t
    case Thrown(e) => ErrorString(e)
  }

  datatype VerifyResult =
    | VerifyOk(status: string, tokenId: string, phoneNumber: string, verified: string)
    | VerifyError(message: VerifyMessage)
  {
    function Status(): string { if VerifyOk? then status else "error" }
  }

  /** What `verifyWithTermii` returns when the provider answers with an HTTP error whose
      body is `data`: the pin id, `verified: "False"`, and the body's fields or defaults. */
  function RejectedReply(token: string, dataMsisdn: string, dataVerified: string, dataStatus: int): (r: VerifyReply)
    ensures r.Checked? && r.pinId == token && r.verified == "False"
    ensures r.message != "" && r.code.Some? && r.code.value != 0
  {
    Checked(token, "False",
            dataMsisdn,
            if dataVerified != "" then dataVerified else VERIFY_DEFAULT,
            Some(if dataStatus != 0 then dataStatus else 500))
  }

  /** `verifyOTP(token, sentOTP)`. The `BadRequestError` raised for a 400 reply is the
      one error it throws that carries a `code`. */
  function VerifyOtp(token: Field<string>, otp: Field<string>, reply: VerifyReply): (r: VerifyResult)
    ensures !Truthy(token) || !Truthy(otp) ==> r == VerifyError(Thrown(NewError(VERIFY_ARGS_REQUIRED)))
    // success exactly when both are given and the provider's `verified` field is truthy
    ensures r.VerifyOk? <==> Truthy(token) && Truthy(otp) && reply.Checked? && reply.verified != ""
    ensures r.VerifyOk? ==> r.Status() == VERIFIED && r.tokenId == reply.pinId &&
                            r.phoneNumber == reply.msisdn && r.verified == reply.verified
    ensures r.VerifyError? ==> r.Status() != VERIFIED
    // a text message is never empty
    ensures r.VerifyError? && r.message.Text? ==> r.message.text != ""
    // a 400 from the provider is reported by its text, the default when it has none
    ensures Truthy(token) && Truthy(otp) && reply.Checked? && reply.verified == "" &&
            reply.code == Some(400) ==>
              r == VerifyError(Text(Or(reply.message, VERIFY_DEFAULT)))
    // any other failure is reported as the error object
    ensures Truthy(token) && Truthy(otp) && reply.Checked? && reply.verified == "" &&
            reply.code != Some(400) ==>
              r == VerifyError(Thrown(NewError(reply.message)))
    ensures Truthy(token) && Truthy(otp) && reply.VerifyThrew? ==> r == VerifyError(Thrown(reply.error))
  {
    if !Truthy(token) || !Truthy(otp) then VerifyError(Thrown(NewError(VERIFY_ARGS_REQUIRED)))
    else match reply
      case VerifyThrew(e) => VerifyError(Thrown(e))
      case Checked(pinId, verified, msisdn, message, code) =>
        if verified == "" then
          if code == Some(400) then
            VerifyError(Text(if message != "" then message else VERIFY_DEFAULT))
          else
            VerifyError(Thrown(NewError(message)))
        else
          VerifyOk(if verified != "" then VERIFIED else "not verified", pinId, msisdn, verified)
  }

  /** The string "False" is truthy, so a provider answer that says the code is wrong
      still yields a verified result. */
  lemma FalseCountsAsVerified(token: string, otp: string, pinId: string, msisdn: string)
    requires token != "" && otp != ""
    ensures VerifyOtp(Value(token), Value(otp), Checked(pinId, "False", msisdn, "", None)).Status() == VERIFIED
  {
  }

  /** Every HTTP error of the verify endpoint is turned by `verifyWithTermii` into a reply
      that `verifyOTP` reports as verified. */
  lemma RejectionCountsAsVerified(token: string, otp: string, dataMsisdn: string, dataVerified: string, dataStatus: int)
    requires token != "" && otp != ""
    ensures VerifyOtp(Value(token), Value(otp), RejectedReply(token, dataMsisdn, dataVerified, dataStatus)).VerifyOk?
  {
  }

  /** The only way to a non-verified result with both arguments given is a provider
      reply whose `verified` field is empty or a failure of the call itself. */
  lemma NotVerifiedNeedsEmptyFlag(token: string, otp: string, reply: VerifyReply)
    requires token != "" && otp != ""
    requires VerifyOtp(Value(token), Value(otp), reply).Status() != VERIFIED
    ensures reply.VerifyThrew? || reply.verified == ""
  {
  }
}
