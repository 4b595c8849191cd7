/** Conversion between a Nigerian local phone number ("0803...") and its international
    form without the plus sign ("234803..."). Only the country code "nga" is known. */
module PhoneService {

  const NIGERIA: string := "nga"
  const CALLING_CODE: string := "234"

  predicate StartsWithZero(phone: string)
  {
    |phone| > 0 && phone[0] == '0'
  }

  function FormatPhoneToInternational(phone: string, country: string): (r: string)
    ensures country != NIGERIA ==> r == ""
    ensures country == NIGERIA ==> |r| >= 3 && r[..3] == CALLING_CODE
    ensures country == NIGERIA ==> |r| == if StartsWithZero(phone) then |phone| + 2 else |phone| + 3
    // what follows the calling code is the number without its trunk '0', or the whole input
    ensures country == NIGERIA ==> r[3..] == if StartsWithZero(phone) then phone[1..] else phone
  {
    if country == NIGERIA then
      if StartsWithZero(phone) then CALLING_CODE + phone[1..] else CALLING_CODE + phone
    else
      ""
  }

  function FormatPhoneToLocal(phone: string, country: string): (r: string)
    ensures country != NIGERIA ==> r == ""
    ensures country == NIGERIA ==> StartsWithZero(r) && r[1..] == phone
  {
    if country == NIGERIA then "0" + phone else ""
  }

  /** Local then international puts the calling code in front of the original digits. */
  lemma InternationalAfterLocal(phone: string)
    ensures FormatPhoneToInternational(FormatPhoneToLocal(phone, NIGERIA), NIGERIA) == CALLING_CODE + phone
  {
  }

  /** Formatting is a left inverse of the international formatter on local numbers:
      dropping the calling code and adding the trunk '0' gives the number back. */
  lemma LocalAfterInternational(phone: string)
    requires StartsWithZero(phone)
    ensures FormatPhoneToLocal(FormatPhoneToInternational(phone, NIGERIA)[3..], NIGERIA) == phone
  {
  }

  /** A number already in international form is prefixed a second time, so the formatter
      is not idempotent. */
  lemma InternationalNotIdempotent()
    ensures FormatPhoneToInternational("2348012345678", NIGERIA) == "2342348012345678"
    ensures FormatPhoneToInternational(FormatPhoneToInternational("2348012345678", NIGERIA), NIGERIA)
            != FormatPhoneToInternational("2348012345678", NIGERIA)
  {
  }

  lemma InternationalExample()
    ensures FormatPhoneToInternational("08012345678", NIGERIA) == "2348012345678"
  {
  }
}
