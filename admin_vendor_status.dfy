/** The admin's approval step: `updateVendorStatusHandler` and the `updateVendorStatus`
    database operation it calls. */
module VendorStatusAdmin {
  import opened Js
  import opened Http
  import opened VendorTables

  const APPROVED: string := "APPROVED"
  const REJECTED: string := "REJECTED"
  const FIELDS_REQUIRED: string := "vendorId and status are required."
  const BAD_STATUS: string := "Status must be either 'APPROVED' or 'REJECTED'."
  const FAILED_STATUS: string := "Failed to update vendor status"
  const INTERNAL: string := "Internal server error"

  function StatusMessage(status: string): (m: string)
    ensures |m| == 25 + |status| && m[..25] == "Vendor status updated to " && m[25..] == status
  {
    "Vendor status updated to " + status
  }

  /** `vendor.update({ where: { id }, data: { status } })`: only the status column of
      that vendor changes. */
  function WithStatus(vendors: map<VendorId, Vendor>, vid: VendorId, status: string): (r: map<VendorId, Vendor>)
    requires vid in vendors
    ensures r.Keys == vendors.Keys && r[vid].status == status && r[vid].(status := vendors[vid].status) == vendors[vid]
    ensures forall w | w in vendors && w != vid :: r[w] == vendors[w]
  {
    vendors[vid := vendors[vid].(status := status)]
  }

  /** No transition is ruled out: setting a status again only overwrites it, so a
      vendor can go back and forth between the two decisions. */
  lemma StatusLastWins(vendors: map<VendorId, Vendor>, vid: VendorId, s1: string, s2: string)
    requires vid in vendors
    ensures WithStatus(WithStatus(vendors, vid, s1), vid, s2) == WithStatus(vendors, vid, s2)
    ensures WithStatus(WithStatus(vendors, vid, s1), vid, vendors[vid].status) == vendors
  {
  }

  /** `updateVendorStatus`. An unknown id makes the update throw. */
  method UpdateVendorStatus(store: VendorStore, vid: VendorId, status: string) returns (r: Result<Vendor>)
    requires store.Valid()
    modifies store
    ensures store.Valid()
    ensures store.vendorServices == old(store.vendorServices) && store.services == old(store.services) &&
            store.accounts == old(store.accounts)
    ensures vid !in old(store.vendors) ==> r == Err(FAILED_STATUS) && store.vendors == old(store.vendors)
    ensures vid in old(store.vendors) ==>
              store.vendors == WithStatus(old(store.vendors), vid, status) && r == Ok(store.vendors[vid])
  {
    if vid !in store.vendors {
      return Err(FAILED_STATUS);
    }
    store.vendors := WithStatus(store.vendors, vid, status);
    return Ok(store.vendors[vid]);
  }

  /** `updateVendorStatusHandler`. The current status is not consulted. */
  method UpdateVendorStatusHandler(store: VendorStore, vendorId: Field<string>, status: Field<string>)
    returns (resp: Response, vendor: Option<Vendor>)
    requires store.Valid()
    modifies store
    ensures store.Valid()
    ensures store.vendorServices == old(store.vendorServices) && store.services == old(store.services) &&
            store.accounts == old(store.accounts)
    ensures resp.IsSuccess() <==> vendor.Some?
    ensures !Truthy(vendorId) || !Truthy(status) ==>
              resp == BadRequest(FIELDS_REQUIRED) && store.vendors == old(store.vendors)
    // the check is exact: no case folding, and PENDING is not accepted
    ensures Truthy(vendorId) && Truthy(status) && status.v != APPROVED && status.v != REJECTED ==>
              resp == BadRequest(BAD_STATUS) && store.vendors == old(store.vendors)
    ensures Truthy(vendorId) && Truthy(status) && (status.v == APPROVED || status.v == REJECTED) ==>
              (vendorId.v !in old(store.vendors) ==> resp == Internal(INTERNAL) && store.vendors == old(store.vendors)) &&
              (vendorId.v in old(store.vendors) ==>
                 store.vendors == WithStatus(old(store.vendors), vendorId.v, status.v) &&
                 resp == Respond(OK, StatusMessage(status.v)) && vendor == Some(store.vendors[vendorId.v]))
  {
    if !Truthy(vendorId) || !Truthy(status) {
      return BadRequest(FIELDS_REQUIRED), None;
    }
    if status.v != APPROVED && status.v != REJECTED {
      return BadRequest(BAD_STATUS), None;
    }
    var r := UpdateVendorStatus(store, vendorId.v, status.v);
    if r.Err? {
      return Internal(INTERNAL), None;
    }
    return Respond(OK, StatusMessage(status.v)), Some(r.value);
  }
}
