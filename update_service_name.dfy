/** `updateServiceNameHandler`: a vendor gives all of its services one name. The name
    is not checked against the service names; a vendor with two or more services hits
    the unique (name, vendorId) key and the request fails. */
module UpdateServiceNameHandler {
  import opened Js
  import opened Http
  import opened VendorTables
  import opened ServiceDb

  const USER_NOT_FOUND: string := "User not found"
  const NAME_REQUIRED: string := "Service name is required."
  const VENDOR_NOT_FOUND: string := "Vendor profile not found for user."
  const NO_SERVICE: string := "No service found for vendor."
  const NAME_UPDATED: string := "Service name updated successfully."
  const INTERNAL: string := "Internal server error"

  /** `updateServiceNameHandler`. `auth` is the authenticated user's id. */
  method UpdateServiceName(store: VendorStore, auth: Field<string>, name: Field<string>, now: int)
    returns (resp: Response)
    requires store.Valid()
    modifies store
    ensures store.Valid()
    ensures store.vendors == old(store.vendors) && store.vendorServices == old(store.vendorServices) &&
            store.accounts == old(store.accounts)
    ensures !Truthy(auth) ==> resp == Internal(USER_NOT_FOUND) && store.services == old(store.services)
    ensures Truthy(auth) && !Truthy(name) ==> resp == BadRequest(NAME_REQUIRED) && store.services == old(store.services)
    ensures Truthy(auth) && Truthy(name) && !HasVendorOfUser(old(store.vendors), auth.v) ==>
              resp == BadRequest(VENDOR_NOT_FOUND) && store.services == old(store.services)
    ensures Truthy(auth) && Truthy(name) && HasVendorOfUser(old(store.vendors), auth.v) ==>
              var vid := VendorOfUser(old(store.vendors), auth.v);
              var count := ServiceCount(old(store.services), vid);
              (count == 0 ==> resp == BadRequest(NO_SERVICE) && store.services == old(store.services)) &&
              (count == 1 ==> resp == Respond(OK, NAME_UPDATED) &&
                              store.services == PatchAll(old(store.services), vid, SetName(name.v), now)) &&
              (count >= 2 ==> resp == Internal(INTERNAL) && store.services == old(store.services))
  {
    if !Truthy(auth) {
      return Internal(USER_NOT_FOUND);
    }
    if !Truthy(name) {
      return BadRequest(NAME_REQUIRED);
    }
    if !HasVendorOfUser(store.vendors, auth.v) {
      return BadRequest(VENDOR_NOT_FOUND);
    }
    var vid :| vid in store.vendors && store.vendors[vid].userId == auth.v;
    VendorOfUserUnique(store.vendors, vid);
    if ServiceCount(store.services, vid) == 0 {
      return BadRequest(NO_SERVICE);
    }
    var r := UpdateServiceByVendorId(store, vid, SetName(name.v), now);
    if r.Err? {
      return Internal(INTERNAL);
    }
    return Respond(OK, NAME_UPDATED);
  }
}
