/** `updateServiceLocationHandler`: a vendor moves all of its services to one location. */
module UpdateLocationHandler {
  import opened Js
  import opened Http
  import opened VendorTables
  import opened ServiceDb

  const USER_NOT_FOUND: string := "User not found"
  const LOCATION_REQUIRED: string := "Location is required."
  const VENDOR_NOT_FOUND: string := "Vendor profile not found for user."
  const NO_SERVICE: string := "No service found for vendor."
  const LOCATION_UPDATED: string := "Service location updated successfully."

  /** `updateServiceLocationHandler`. `auth` is the authenticated user's id. */
  method UpdateServiceLocation(store: VendorStore, auth: Field<string>, location: Field<string>, now: int)
    returns (resp: Response)
    requires store.Valid()
    modifies store
    ensures store.Valid()
    ensures store.vendors == old(store.vendors) && store.vendorServices == old(store.vendorServices) &&
            store.accounts == old(store.accounts)
    ensures !Truthy(auth) ==> resp == Internal(USER_NOT_FOUND) && store.services == old(store.services)
    // the location is checked before any lookup
    ensures Truthy(auth) && !Truthy(location) ==>
              resp == BadRequest(LOCATION_REQUIRED) && store.services == old(store.services)
    ensures Truthy(auth) && Truthy(location) && !HasVendorOfUser(old(store.vendors), auth.v) ==>
              resp == BadRequest(VENDOR_NOT_FOUND) && store.services == old(store.services)
    ensures Truthy(auth) && Truthy(location) && HasVendorOfUser(old(store.vendors), auth.v) ==>
              var vid := VendorOfUser(old(store.vendors), auth.v);
              (ServiceCount(old(store.services), vid) == 0 ==>
                 resp == BadRequest(NO_SERVICE) && store.services == old(store.services)) &&
              (ServiceCount(old(store.services), vid) > 0 ==>
                 resp == Respond(OK, LOCATION_UPDATED) &&
                 store.services == PatchAll(old(store.services), vid, SetLocation(location.v), now))
  {
    if !Truthy(auth) {
      return Internal(USER_NOT_FOUND);
    }
    if !Truthy(location) {
      return BadRequest(LOCATION_REQUIRED);
    }
    if !HasVendorOfUser(store.vendors, auth.v) {
      return BadRequest(VENDOR_NOT_FOUND);
    }
    var vid :| vid in store.vendors && store.vendors[vid].userId == auth.v;
    VendorOfUserUnique(store.vendors, vid);
    if ServiceCount(store.services, vid) == 0 {
      return BadRequest(NO_SERVICE);
    }
    var r := UpdateServiceByVendorId(store, vid, SetLocation(location.v), now);
    return Respond(OK, LOCATION_UPDATED);
  }

  /** Every service of the vendor ends up at the new location; no other service moves. */
  lemma LocationReachesEveryService(services: seq<Service>, vid: VendorId, location: string, now: int)
    ensures var r := PatchAll(services, vid, SetLocation(location), now);
            ServicesByVendor(r, vid) != [] <==> ServicesByVendor(services, vid) != []
    ensures var r := PatchAll(services, vid, SetLocation(location), now);
            forall s | s in ServicesByVendor(r, vid) :: s.location == location
  {
    var r := PatchAll(services, vid, SetLocation(location), now);
    if ServicesByVendor(services, vid) != [] {
      var j := ServiceIndex(services, vid);
      assert r[j].vendorId == vid;
      assert r[j] in ServicesByVendor(r, vid);
    }
    if ServicesByVendor(r, vid) != [] {
      var j := ServiceIndex(r, vid);
      assert services[j].vendorId == vid;
      assert services[j] in ServicesByVendor(services, vid);
    }
    forall s | s in ServicesByVendor(r, vid)
      ensures s.location == location
    {
      var j :| 0 <= j < |r| && r[j] == s;
    }
  }

  /** A position of one of the vendor's services, when it has any. */
  lemma ServiceIndex(services: seq<Service>, vid: VendorId) returns (j: nat)
    requires ServicesByVendor(services, vid) != []
    ensures j < |services| && services[j].vendorId == vid
  {
    var s := ServicesByVendor(services, vid)[0];
    assert s in services;
    j :| 0 <= j < |services| && services[j] == s;
  }
}
