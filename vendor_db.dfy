/** The vendor database operations: creating a vendor with its service names, and
    updating a vendor's profile and (optionally) replacing its service names. Both cap a
    vendor at two service names in its category, inside a loop over the given names. */
module VendorDb {
  import opened Js
  import opened VendorTables

  const FAILED_CREATE: string := "Failed to create vendor and services"
  const FAILED_UPDATE: string := "Failed to update vendor and services"
  /** The most service names a vendor may have in its category. */
  const SERVICE_CAP: nat := 2

  function Min(a: nat, b: nat): (m: nat)
    ensures m <= a && m <= b && (m == a || m == b)
  {
    if a <= b then a else b
  }

  /** The rows `vendorService.create` adds for `names`, in order. */
  function Rows(vid: VendorId, category: string, names: seq<string>): (r: seq<VendorService>)
    ensures |r| == |names|
    ensures forall j | 0 <= j < |r| :: r[j] == VendorService(vid, names[j], category)
  {
    seq(|names|, j requires 0 <= j < |names| => VendorService(vid, names[j], category))
  }

  lemma RowsSnoc(vid: VendorId, category: string, names: seq<string>, i: nat)
    requires i < |names|
    ensures Rows(vid, category, names[..i + 1]) == Rows(vid, category, names[..i]) + [VendorService(vid, names[i], category)]
  {
  }

  /** All added rows belong to `vid` in `category`, so they count there and nowhere else. */
  lemma {:induction false} CountRows(vid: VendorId, category: string, names: seq<string>, v: VendorId, c: string)
    ensures CountFor(Rows(vid, category, names), v, c) == if v == vid && c == category then |names| else 0
  {
    if names != [] {
      var r := Rows(vid, category, names);
      CountRows(vid, category, names[..|names| - 1], v, c);
      assert r[..|r| - 1] == Rows(vid, category, names[..|names| - 1]);
    }
  }

  /** How many names, from the start, are service names. */
  function ValidPrefixLength(names: seq<string>, valid: set<string>): (n: nat)
    ensures n <= |names|
    ensures forall j | 0 <= j < n :: names[j] in valid
    ensures n < |names| ==> names[n] !in valid
  {
    if names == [] || names[0] !in valid then 0 else 1 + ValidPrefixLength(names[1..], valid)
  }

  /** `vendorService.deleteMany({ vendorId, category })`: the rows of that vendor in that
      category go, every other row stays, in order. */
  function WithoutCategory(rows: seq<VendorService>, vid: VendorId, category: string): (r: seq<VendorService>)
    ensures forall j | 0 <= j < |r| :: r[j] in rows && !(r[j].vendorId == vid && r[j].category == category)
    ensures forall x | x in rows && !(x.vendorId == vid && x.category == category) :: x in r
    ensures forall v, c :: CountFor(r, v, c) == if v == vid && c == category then 0 else CountFor(rows, v, c)
  {
    if rows == [] then []
    else
      var prefix := rows[..|rows| - 1];
      var last := rows[|rows| - 1];
      var kept := WithoutCategory(prefix, vid, category);
      assert rows == prefix + [last];
      if last.vendorId == vid && last.category == category then kept
      else
        assert forall v, c :: CountFor(kept + [last], v, c) == CountFor(kept, v, c) + CountFor([last], v, c) by {
          forall v, c ensures CountFor(kept + [last], v, c) == CountFor(kept, v, c) + CountFor([last], v, c) {
            CountForAppend(kept, [last], v, c);
          }
        }
        kept + [last]
  }

  /** The vendor row `vendor.create` inserts. */
  function NewVendor(vid: VendorId, userId: UserId, profile: map<VendorField, Option<string>>,
                     serviceCategory: string, now: int): (v: Vendor)
    ensures v.id == vid && v.userId == userId && v.profile == profile && v.serviceCategory == serviceCategory
    ensures v.status == VENDOR_PENDING
  {
    Vendor(vid, userId, profile, serviceCategory, VENDOR_PENDING, now)
  }

  /** `vendor.updateMany({ where: { userId }, data: { ...fields, updatedAt } })`: the
      vendor of that user gets the given columns and the clock reading; every column not
      given, and every other vendor, stays. */
  function UpdateProfiles(vendors: map<VendorId, Vendor>, userId: UserId, patch: map<VendorField, Option<string>>,
                          now: int): (r: map<VendorId, Vendor>)
    ensures r.Keys == vendors.Keys
    ensures forall vid | vid in vendors && vendors[vid].userId != userId :: r[vid] == vendors[vid]
    ensures forall vid | vid in vendors && vendors[vid].userId == userId ::
              r[vid].updatedAt == now &&
              r[vid].(profile := vendors[vid].profile, updatedAt := vendors[vid].updatedAt) == vendors[vid] &&
              (forall f | f in patch :: f in r[vid].profile && r[vid].profile[f] == patch[f]) &&
              (forall f | f !in patch :: (f in r[vid].profile <==> f in vendors[vid].profile) &&
                                         (f in vendors[vid].profile ==> r[vid].profile[f] == vendors[vid].profile[f]))
  {
    map vid | vid in vendors ::
      if vendors[vid].userId == userId then vendors[vid].(profile := vendors[vid].profile + patch, updatedAt := now)
      else vendors[vid]
  }

  /** `count` of the vendor update: the unique user constraint leaves one row or none. */
  function UpdatedCount(vendors: map<VendorId, Vendor>, userId: UserId): (n: nat)
    ensures n <= 1
    ensures n == 1 <==> HasVendorOfUser(vendors, userId)
  {
    if HasVendorOfUser(vendors, userId) then 1 else 0
  }

  /** A new vendor with at most two rows of its own keeps the tables consistent. */
  lemma InsertVendorConsistent(vendors: map<VendorId, Vendor>, rows: seq<VendorService>, services: seq<Service>,
                               accounts: map<VendorId, VendorAccount>, v: Vendor, names: seq<string>)
    requires TablesConsistent(vendors, rows, services, accounts)
    requires v.id !in vendors && !HasVendorOfUser(vendors, v.userId) && |names| <= SERVICE_CAP
    ensures TablesConsistent(vendors[v.id := v], rows + Rows(v.id, v.serviceCategory, names), services, accounts)
  {
    var vendors' := vendors[v.id := v];
    var rows' := rows + Rows(v.id, v.serviceCategory, names);
    forall vid | vid in vendors'
      ensures CountFor(rows', vid, vendors'[vid].serviceCategory) <= 2
    {
      CountForAppend(rows, Rows(v.id, v.serviceCategory, names), vid, vendors'[vid].serviceCategory);
      CountRows(v.id, v.serviceCategory, names, vid, vendors'[vid].serviceCategory);
      if vid == v.id {
        CountForAbsent(rows, v.id, v.serviceCategory);
      }
    }
  }

  /** Replacing a vendor's rows in its own category by at most two new ones keeps the
      tables consistent. */
  lemma ReplaceRowsConsistent(vendors: map<VendorId, Vendor>, rows: seq<VendorService>, services: seq<Service>,
                              accounts: map<VendorId, VendorAccount>, vid: VendorId, names: seq<string>)
    requires TablesConsistent(vendors, rows, services, accounts)
    requires vid in vendors && |names| <= SERVICE_CAP
    ensures TablesConsistent(vendors, WithoutCategory(rows, vid, vendors[vid].serviceCategory) +
                                      Rows(vid, vendors[vid].serviceCategory, names), services, accounts)
  {
    var category := vendors[vid].serviceCategory;
    var kept := WithoutCategory(rows, vid, category);
    var rows' := kept + Rows(vid, category, names);
    forall j | 0 <= j < |rows'|
      ensures rows'[j].vendorId in vendors && rows'[j].category == vendors[rows'[j].vendorId].serviceCategory
    {
      if j < |kept| {
        assert rows'[j] == kept[j] && kept[j] in rows;
      }
    }
    forall w | w in vendors
      ensures CountFor(rows', w, vendors[w].serviceCategory) <= 2
    {
      CountForAppend(kept, Rows(vid, category, names), w, vendors[w].serviceCategory);
      CountRows(vid, category, names, w, vendors[w].serviceCategory);
    }
  }

  /** Updating profile columns keeps the tables consistent. */
  lemma UpdateProfilesConsistent(vendors: map<VendorId, Vendor>, rows: seq<VendorService>, services: seq<Service>,
                                 accounts: map<VendorId, VendorAccount>, userId: UserId,
                                 patch: map<VendorField, Option<string>>, now: int)
    requires TablesConsistent(vendors, rows, services, accounts)
    ensures TablesConsistent(UpdateProfiles(vendors, userId, patch, now), rows, services, accounts)
  {
    var vendors' := UpdateProfiles(vendors, userId, patch, now);
    assert forall vid | vid in vendors :: vendors'[vid].serviceCategory == vendors[vid].serviceCategory;
  }

  /** The name loop of `createVendorWithServices`: each name is checked, the vendor's
      rows in the category are counted, and one row is inserted. */
  method AddServiceRows(store: VendorStore, vid: VendorId, category: string, names: seq<string>, valid: set<string>)
    returns (ok: bool)
    requires CountFor(store.vendorServices, vid, category) == 0
    modifies store
    ensures store.vendors == old(store.vendors) && store.services == old(store.services)
    ensures store.accounts == old(store.accounts)
    // the names before the first invalid one are inserted, at most two of them
    ensures store.vendorServices ==
              old(store.vendorServices) + Rows(vid, category, names[..Min(ValidPrefixLength(names, valid), SERVICE_CAP)])
    // success exactly when every name is valid and there are at most two
    ensures ok <==> |names| <= SERVICE_CAP && ValidPrefixLength(names, valid) == |names|
  {
    var i := 0;
    while i < |names|
      invariant 0 <= i <= |names| && i <= SERVICE_CAP
      invariant forall j | 0 <= j < i :: names[j] in valid
      invariant store.vendors == old(store.vendors) && store.services == old(store.services)
      invariant store.accounts == old(store.accounts)
      invariant store.vendorServices == old(store.vendorServices) + Rows(vid, category, names[..i])
    {
      if names[i] !in valid {
        return false;
      }
      CountForAppend(old(store.vendorServices), Rows(vid, category, names[..i]), vid, category);
      CountRows(vid, category, names[..i], vid, category);
      var count := CountFor(store.vendorServices, vid, category);
      if count >= SERVICE_CAP {
        return false;
      }
      RowsSnoc(vid, category, names, i);
      store.vendorServices := store.vendorServices + [VendorService(vid, names[i], category)];
      i := i + 1;
    }
    assert names[..i] == names;
    return true;
  }

  /** `createVendorWithServices`. The vendor row is written first and is kept when a
      later step fails. `vid` is the id the database assigns. */
  method CreateVendorWithServices(store: VendorStore, vid: VendorId, userId: UserId,
                                  profile: map<VendorField, Option<string>>, serviceCategory: string,
                                  names: seq<string>, now: int, enums: Enums)
    returns (r: Result<Vendor>)
    requires store.Valid() && vid !in store.vendors
    modifies store
    ensures store.Valid()
    ensures store.services == old(store.services) && store.accounts == old(store.accounts)
    ensures r.Err? ==> r.message == FAILED_CREATE
    // the unique user constraint rejects a second vendor for a user
    ensures HasVendorOfUser(old(store.vendors), userId) ==>
              r.Err? && store.vendors == old(store.vendors) && store.vendorServices == old(store.vendorServices)
    ensures !HasVendorOfUser(old(store.vendors), userId) ==>
              var v := NewVendor(vid, userId, profile, serviceCategory, now);
              var k := Min(ValidPrefixLength(names, enums.serviceNames), SERVICE_CAP);
              store.vendors == old(store.vendors)[vid := v] &&
              store.vendorServices == old(store.vendorServices) + Rows(vid, serviceCategory, names[..k]) &&
              (r.Ok? <==> |names| <= SERVICE_CAP && ValidPrefixLength(names, enums.serviceNames) == |names|) &&
              (r.Ok? ==> r.value == v)
  {
    if HasVendorOfUser(store.vendors, userId) {
      return Err(FAILED_CREATE);
    }
    var v := NewVendor(vid, userId, profile, serviceCategory, now);
    ghost var rows0 := store.vendorServices;
    ghost var vendors0 := store.vendors;
    store.vendors := store.vendors[vid := v];
    CountForAbsent(rows0, vid, serviceCategory);
    var ok := AddServiceRows(store, vid, serviceCategory, names, enums.serviceNames);
    InsertVendorConsistent(vendors0, rows0, store.services, store.accounts, v,
                           names[..Min(ValidPrefixLength(names, enums.serviceNames), SERVICE_CAP)]);
    assert TablesConsistent(store.vendors, store.vendorServices, store.services, store.accounts);
    r := if ok then Ok(v) else Err(FAILED_CREATE);
  }

  /** The insert loop of `updateVendorByUserId`, after the vendor's rows in the category
      are deleted: each name is checked and inserted until two are in. */
  method InsertServiceRows(store: VendorStore, vid: VendorId, category: string, names: seq<string>, valid: set<string>)
    returns (ok: bool)
    modifies store
    ensures store.vendors == old(store.vendors) && store.services == old(store.services)
    ensures store.accounts == old(store.accounts)
    ensures store.vendorServices ==
              old(store.vendorServices) + Rows(vid, category, names[..Min(ValidPrefixLength(names, valid), SERVICE_CAP)])
    // the name after the second is still checked; later ones are not looked at
    ensures ok <==> ValidPrefixLength(names, valid) >= Min(|names|, SERVICE_CAP + 1)
  {
    var count := 0;
    var i := 0;
    while i < |names|
      invariant 0 <= i <= |names| && count == i && count <= SERVICE_CAP
      invariant forall j | 0 <= j < i :: names[j] in valid
      invariant store.vendors == old(store.vendors) && store.services == old(store.services)
      invariant store.accounts == old(store.accounts)
      invariant store.vendorServices == old(store.vendorServices) + Rows(vid, category, names[..count])
    {
      if names[i] !in valid {
        return false;
      }
      if count >= SERVICE_CAP {
        break;
      }
      RowsSnoc(vid, category, names, i);
      store.vendorServices := store.vendorServices + [VendorService(vid, names[i], category)];
      count := count + 1;
      i := i + 1;
    }
    return true;
  }

  /** `updateVendorByUserId`. The profile update comes first and stays when the service
      step fails; given names replace the vendor's rows in its category. */
  method UpdateVendorByUserId(store: VendorStore, userId: UserId, patch: map<VendorField, Option<string>>,
                              names: seq<string>, now: int, enums: Enums)
    returns (r: Result<nat>)
    requires store.Valid()
    modifies store
    ensures store.Valid()
    ensures store.services == old(store.services) && store.accounts == old(store.accounts)
    ensures store.vendors == UpdateProfiles(old(store.vendors), userId, patch, now)
    ensures r.Err? ==> r.message == FAILED_UPDATE
    ensures r.Ok? ==> r.value == UpdatedCount(old(store.vendors), userId)
    // no names: the service rows are not touched
    ensures names == [] ==> r.Ok? && store.vendorServices == old(store.vendorServices)
    ensures names != [] && !HasVendorOfUser(old(store.vendors), userId) ==>
              r.Err? && store.vendorServices == old(store.vendorServices)
    ensures names != [] && HasVendorOfUser(old(store.vendors), userId) ==>
              var vid := VendorOfUser(old(store.vendors), userId);
              var category := old(store.vendors)[vid].serviceCategory;
              var k := Min(ValidPrefixLength(names, enums.serviceNames), SERVICE_CAP);
              store.vendorServices == WithoutCategory(old(store.vendorServices), vid, category) +
                                      Rows(vid, category, names[..k]) &&
              (r.Ok? <==> ValidPrefixLength(names, enums.serviceNames) >= Min(|names|, SERVICE_CAP + 1))
  {
    ghost var vendors0 := store.vendors;
    UpdateProfilesConsistent(store.vendors, store.vendorServices, store.services, store.accounts, userId, patch, now);
    var updated := UpdatedCount(store.vendors, userId);
    store.vendors := UpdateProfiles(store.vendors, userId, patch, now);
    assert TablesConsistent(store.vendors, store.vendorServices, store.services, store.accounts);
    if names == [] {
      return Ok(updated);
    }
    if !HasVendorOfUser(store.vendors, userId) {
      return Err(FAILED_UPDATE);
    }
    var vid :| vid in store.vendors && store.vendors[vid].userId == userId;
    VendorOfUserUnique(vendors0, vid);
    var category := store.vendors[vid].serviceCategory;
    ghost var rows0 := store.vendorServices;
    store.vendorServices := WithoutCategory(store.vendorServices, vid, category);
    var ok := InsertServiceRows(store, vid, category, names, enums.serviceNames);
    ReplaceRowsConsistent(store.vendors, rows0, store.services, store.accounts, vid,
                          names[..Min(ValidPrefixLength(names, enums.serviceNames), SERVICE_CAP)]);
    assert TablesConsistent(store.vendors, store.vendorServices, store.services, store.accounts);
    r := if ok then Ok(updated) else Err(FAILED_UPDATE);
  }
}
