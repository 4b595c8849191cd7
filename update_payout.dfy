/** `updatePayoutInformationHandler`: a vendor changes its bank details. */
module UpdatePayoutHandler {
  import opened Js
  import opened Http
  import opened VendorTables
  import opened VendorAccountDb
  import opened CreatePayoutHandler

  const PAYOUT_UPDATED: string := "Payout information updated successfully."

  /** `updatePayoutInformationHandler`. `auth` is the authenticated user's id;
      `updatedCount` is the count the response carries. Only the four banking fields
      of the body are used. */
  method UpdatePayoutInformation(store: VendorStore, auth: Field<string>, body: PayoutBody, enums: Enums, now: int)
    returns (resp: Response, updatedCount: Option<nat>)
    requires store.Valid()
    modifies store
    ensures store.Valid()
    ensures store.vendors == old(store.vendors) && store.vendorServices == old(store.vendorServices) &&
            store.services == old(store.services)
    ensures resp.IsSuccess() <==> updatedCount.Some?
    ensures !Truthy(auth) ==> resp == Internal(USER_NOT_FOUND) && store.accounts == old(store.accounts)
    ensures Truthy(auth) && PayoutError(body, enums).Some? ==>
              resp == BadRequest(PayoutError(body, enums).value) && store.accounts == old(store.accounts)
    ensures Truthy(auth) && PayoutError(body, enums).None? && !HasVendorOfUser(old(store.vendors), auth.v) ==>
              resp == BadRequest(VENDOR_NOT_FOUND) && store.accounts == old(store.accounts)
    ensures Truthy(auth) && PayoutError(body, enums).None? && HasVendorOfUser(old(store.vendors), auth.v) ==>
              var vid := VendorOfUser(old(store.vendors), auth.v);
              resp == Respond(OK, PAYOUT_UPDATED) &&
              // success is reported even when the vendor has no account to update
              (vid !in old(store.accounts) ==> updatedCount == Some(0) && store.accounts == old(store.accounts)) &&
              (vid in old(store.accounts) ==>
                 updatedCount == Some(1) &&
                 store.accounts == old(store.accounts)[vid := WithBanking(old(store.accounts)[vid], BankingOf(body), now)])
  {
    if !Truthy(auth) {
      return Internal(USER_NOT_FOUND), None;
    }
    var error := PayoutError(body, enums);
    if error.Some? {
      return BadRequest(error.value), None;
    }
    if !HasVendorOfUser(store.vendors, auth.v) {
      return BadRequest(VENDOR_NOT_FOUND), None;
    }
    var vid :| vid in store.vendors && store.vendors[vid].userId == auth.v;
    VendorOfUserUnique(store.vendors, vid);
    var count := UpdateVendorAccount(store, vid, BankingOf(body), now);
    return Respond(OK, PAYOUT_UPDATED), Some(count);
  }
}
