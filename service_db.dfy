/** The service catalogue operations: the upsert keyed by (name, vendorId), the
    per-vendor listing, and the bulk update of one vendor's services. */
module ServiceDb {
  import opened Js
  import opened VendorTables

  const FAILED_UPSERT: string := "Failed to upsert service"
  const FAILED_UPDATE_SERVICES: string := "Failed to update services"

  /** The `data` given to `createService`, apart from the vendor id. */
  datatype ServiceInput = ServiceInput(
    name: string,
    description: string,
    images: seq<string>,
    serviceCategory: Field<string>,
    location: string,
    pricingModel: string,
    availableHours: Field<string>,
    minPrice: Field<Price>,
    maxPrice: Field<Price>,
    fixedPrice: Field<Price>,
    startingPrice: Field<Price>)

  /** The first row with the given (name, vendorId) pair. */
  function FindService(services: seq<Service>, name: string, vid: VendorId): (r: Option<nat>)
    ensures r.Some? ==> r.value < |services| && services[r.value].name == name && services[r.value].vendorId == vid
    ensures r.Some? ==> forall j | 0 <= j < r.value :: !(services[j].name == name && services[j].vendorId == vid)
    ensures r.None? <==> forall j | 0 <= j < |services| :: !(services[j].name == name && services[j].vendorId == vid)
  {
    if services == [] then None
    else if services[0].name == name && services[0].vendorId == vid then Some(0)
    else match FindService(services[1..], name, vid)
      case None =>
        assert forall j | 1 <= j < |services| :: services[j] == services[1..][j - 1];
        None
      case Some(k) =>
        assert forall j | 1 <= j < k + 1 :: services[j] == services[1..][j - 1];
        Some(k + 1)
  }

  /** The `update` branch: the listed columns are overwritten and updatedAt set; id,
      name, vendorId, availableHours and createdAt are kept. */
  function Updated(s: Service, input: ServiceInput, now: int): (r: Service)
    ensures r.id == s.id && r.name == s.name && r.vendorId == s.vendorId
    ensures r.availableHours == s.availableHours && r.createdAt == s.createdAt
    ensures r.description == input.description && r.images == input.images && r.location == input.location &&
            r.pricingModel == input.pricingModel && r.updatedAt == now
    // an undefined field leaves the column as it was
    ensures r.serviceCategory == Write(s.serviceCategory, input.serviceCategory)
    ensures r.minPrice == Write(s.minPrice, input.minPrice) && r.maxPrice == Write(s.maxPrice, input.maxPrice)
    ensures r.fixedPrice == Write(s.fixedPrice, input.fixedPrice) &&
            r.startingPrice == Write(s.startingPrice, input.startingPrice)
  {
    s.(description := input.description, images := input.images,
       serviceCategory := Write(s.serviceCategory, input.serviceCategory),
       location := input.location, pricingModel := input.pricingModel,
       minPrice := Write(s.minPrice, input.minPrice), maxPrice := Write(s.maxPrice, input.maxPrice),
       fixedPrice := Write(s.fixedPrice, input.fixedPrice), startingPrice := Write(s.startingPrice, input.startingPrice),
       updatedAt := now)
  }

  /** The `create` branch: a new row for the pair. availableHours is not among the
      columns written, so it starts empty. */
  function Created(input: ServiceInput, vid: VendorId, now: int, newId: ServiceId): (r: Service)
    ensures r.id == newId && r.name == input.name && r.vendorId == vid && r.availableHours == None
    ensures r.createdAt == now && r.updatedAt == now
    ensures r == Updated(r, input, now)
  {
    Service(newId, input.name, vid, input.description, input.images, Write(None, input.serviceCategory),
            input.location, input.pricingModel, None,
            Write(None, input.minPrice), Write(None, input.maxPrice),
            Write(None, input.fixedPrice), Write(None, input.startingPrice), now, now)
  }

  /** The table after `service.upsert`. */
  function Upsert(services: seq<Service>, input: ServiceInput, vid: VendorId, now: int, newId: ServiceId): (r: seq<Service>)
    ensures FindService(services, input.name, vid).Some? ==>
              var i := FindService(services, input.name, vid).value;
              r == services[i := Updated(services[i], input, now)]
    ensures FindService(services, input.name, vid).None? ==> r == services + [Created(input, vid, now, newId)]
  {
    match FindService(services, input.name, vid)
    case Some(i) => services[i := Updated(services[i], input, now)]
    case None => services + [Created(input, vid, now, newId)]
  }

  /** The row the upsert returns. */
  function Upserted(services: seq<Service>, input: ServiceInput, vid: VendorId, now: int, newId: ServiceId): (s: Service)
    ensures s.name == input.name && s.vendorId == vid && s.updatedAt == now
    ensures s in Upsert(services, input, vid, now, newId)
  {
    match FindService(services, input.name, vid)
    case Some(i) =>
      assert Upsert(services, input, vid, now, newId)[i] == Updated(services[i], input, now);
      Updated(services[i], input, now)
    case None =>
      assert Upsert(services, input, vid, now, newId)[|services|] == Created(input, vid, now, newId);
      Created(input, vid, now, newId)
  }

  /** The upsert keeps the catalogue well formed and leaves exactly one row per
      (name, vendorId) pair, the one it returns. */
  lemma UpsertWellFormed(vendors: map<VendorId, Vendor>, services: seq<Service>, input: ServiceInput, vid: VendorId,
                         now: int, newId: ServiceId)
    requires ServicesWellFormed(vendors, services) && vid in vendors
    requires forall j | 0 <= j < |services| :: services[j].id != newId && services[j].createdAt <= now
    ensures ServicesWellFormed(vendors, Upsert(services, input, vid, now, newId))
    ensures var r := Upsert(services, input, vid, now, newId);
            forall j | 0 <= j < |r| && r[j].name == input.name && r[j].vendorId == vid ::
              r[j] == Upserted(services, input, vid, now, newId)
  {
  }

  /** The value of availableHours in the input never reaches the table. */
  lemma UpsertIgnoresAvailableHours(services: seq<Service>, input: ServiceInput, vid: VendorId, now: int,
                                    newId: ServiceId, hours: Field<string>)
    ensures Upsert(services, input, vid, now, newId) == Upsert(services, input.(availableHours := hours), vid, now, newId)
  {
  }

  /** The upserted pair is found again at the same place. */
  lemma FindAfterUpsert(services: seq<Service>, input: ServiceInput, vid: VendorId, now: int, newId: ServiceId)
    ensures var i := FindService(services, input.name, vid);
            FindService(Upsert(services, input, vid, now, newId), input.name, vid) ==
              Some(if i.Some? then i.value else |services|)
  {
    var r := Upsert(services, input, vid, now, newId);
    var i := FindService(services, input.name, vid);
    var k := if i.Some? then i.value else |services|;
    assert r[k].name == input.name && r[k].vendorId == vid;
    assert forall j | 0 <= j < k :: r[j] == services[j];
    match FindService(r, input.name, vid)
    case None =>
      assert false;
    case Some(m) =>
      assert m == k;
  }

  /** Upserting the same input twice at the same moment is the same as upserting it once. */
  lemma UpsertIdempotent(services: seq<Service>, input: ServiceInput, vid: VendorId, now: int,
                         newId: ServiceId, otherId: ServiceId)
    ensures var once := Upsert(services, input, vid, now, newId);
            Upsert(once, input, vid, now, otherId) == once
  {
    var once := Upsert(services, input, vid, now, newId);
    FindAfterUpsert(services, input, vid, now, newId);
    var k := FindService(once, input.name, vid).value;
    assert Updated(once[k], input, now) == once[k];
  }

  /** `getServicesByVendorId`: that vendor's rows, newest first. */
  function ServicesByVendor(services: seq<Service>, vid: VendorId): (r: seq<Service>)
    ensures |r| <= |services|
    ensures forall j | 0 <= j < |r| :: r[j].vendorId == vid && r[j] in services
    ensures forall j | 0 <= j < |services| && services[j].vendorId == vid :: services[j] in r
  {
    if services == [] then []
    else
      var prefix := services[..|services| - 1];
      var last := services[|services| - 1];
      var rest := ServicesByVendor(prefix, vid);
      assert forall j | 0 <= j < |services| - 1 :: services[j] == prefix[j];
      if last.vendorId == vid then [last] + rest else rest
  }

  /** The listing holds each of the vendor's rows as often as the table does, and no
      other row. */
  lemma {:induction false} ServicesByVendorExact(services: seq<Service>, vid: VendorId)
    ensures forall x :: multiset(ServicesByVendor(services, vid))[x] ==
                        if x.vendorId == vid then multiset(services)[x] else 0
  {
    if services != [] {
      var prefix := services[..|services| - 1];
      var last := services[|services| - 1];
      assert services == prefix + [last];
      ServicesByVendorExact(prefix, vid);
    }
  }

  predicate OldestFirst(rows: seq<Service>)
  {
    forall i, j | 0 <= i < j < |rows| :: rows[i].createdAt <= rows[j].createdAt
  }

  predicate NewestFirst(rows: seq<Service>)
  {
    forall i, j | 0 <= i < j < |rows| :: rows[i].createdAt >= rows[j].createdAt
  }

  /** With rows stored in creation order, the listing is ordered newest first. */
  lemma {:induction false} ServicesByVendorNewestFirst(services: seq<Service>, vid: VendorId)
    requires OldestFirst(services)
    ensures NewestFirst(ServicesByVendor(services, vid))
  {
    if services != [] {
      var prefix := services[..|services| - 1];
      var last := services[|services| - 1];
      assert OldestFirst(prefix) by {
        assert forall a | 0 <= a < |prefix| :: prefix[a] == services[a];
      }
      ServicesByVendorNewestFirst(prefix, vid);
      var rest := ServicesByVendor(prefix, vid);
      forall x | x in rest
        ensures x.createdAt <= last.createdAt
      {
        var j :| 0 <= j < |prefix| && prefix[j] == x;
        assert prefix[j] == services[j];
      }
      var r := ServicesByVendor(services, vid);
      if last.vendorId == vid {
        assert r == [last] + rest;
        forall i, j | 0 <= i < j < |r|
          ensures r[i].createdAt >= r[j].createdAt
        {
          assert r[j] == rest[j - 1] && rest[j - 1] in rest;
          if i > 0 {
            assert r[i] == rest[i - 1];
            assert rest[i - 1].createdAt >= rest[j - 1].createdAt;
          } else {
            assert r[i] == last;
            assert rest[j - 1].createdAt <= last.createdAt;
          }
        }
      }
    }
  }

  /** The number of services of a vendor. */
  function ServiceCount(services: seq<Service>, vid: VendorId): (n: nat)
    ensures n == 0 <==> forall j | 0 <= j < |services| :: services[j].vendorId != vid
    // the number of rows `getServicesByVendorId` lists
    ensures n == |ServicesByVendor(services, vid)|
  {
    var r := ServicesByVendor(services, vid);
    if |r| == 0 then 0
    else
      assert r[0] in services;
      |r|
  }

  /** The positions of a vendor's rows. */
  function RowsOf(services: seq<Service>, vid: VendorId): set<nat>
  {
    set j: nat | j < |services| && services[j].vendorId == vid
  }

  /** The count is the number of rows whose vendorId matches, as `updateMany` counts
      the rows it changes. */
  lemma {:induction false} ServiceCountIsMatchingRows(services: seq<Service>, vid: VendorId)
    ensures ServiceCount(services, vid) == |RowsOf(services, vid)|
  {
    if services != [] {
      var prefix := services[..|services| - 1];
      var last := services[|services| - 1];
      ServiceCountIsMatchingRows(prefix, vid);
      var n := |services| - 1;
      assert ServicesByVendor(services, vid) ==
             if last.vendorId == vid then [last] + ServicesByVendor(prefix, vid) else ServicesByVendor(prefix, vid);
      var before, after := RowsOf(prefix, vid), RowsOf(services, vid);
      forall j | j in after && j != n ensures j in before {
        assert services[j] == prefix[j];
      }
      forall j | j in before ensures j in after {
        assert services[j] == prefix[j];
      }
      if last.vendorId == vid {
        assert after == before + {n};
      } else {
        assert after == before;
      }
    }
  }

  /** The columns the handlers pass to `updateServiceByVendorId`. */
  datatype ServicePatch = SetLocation(location: string) | SetName(name: string)

  function Patched(s: Service, patch: ServicePatch, now: int): (r: Service)
    // the given column and updatedAt change, nothing else
    ensures patch.SetLocation? ==>
              r.(location := s.location, updatedAt := s.updatedAt) == s && r.location == patch.location && r.updatedAt == now
    ensures patch.SetName? ==>
              r.(name := s.name, updatedAt := s.updatedAt) == s && r.name == patch.name && r.updatedAt == now
  {
    match patch
    case SetLocation(location) => s.(location := location, updatedAt := now)
    case SetName(name) => s.(name := name, updatedAt := now)
  }

  /** `service.updateMany({ where: { vendorId }, data })`: every row of the vendor is
      patched, every other row stays. */
  function PatchAll(services: seq<Service>, vid: VendorId, patch: ServicePatch, now: int): (r: seq<Service>)
    ensures |r| == |services|
    ensures forall j | 0 <= j < |r| && services[j].vendorId == vid :: r[j] == Patched(services[j], patch, now)
    ensures forall j | 0 <= j < |r| && services[j].vendorId != vid :: r[j] == services[j]
  {
    seq(|services|, j requires 0 <= j < |services| =>
      if services[j].vendorId == vid then Patched(services[j], patch, now) else services[j])
  }

  /** A location change, or a name change on a vendor with at most one service, keeps
      the catalogue well formed. */
  lemma PatchAllWellFormed(vendors: map<VendorId, Vendor>, services: seq<Service>, vid: VendorId,
                           patch: ServicePatch, now: int)
    requires ServicesWellFormed(vendors, services)
    requires patch.SetName? ==> ServiceCount(services, vid) <= 1
    ensures ServicesWellFormed(vendors, PatchAll(services, vid, patch, now))
  {
    var r := PatchAll(services, vid, patch, now);
    if patch.SetName? {
      forall i, j | 0 <= i < j < |r| && r[i].vendorId == r[j].vendorId
        ensures r[i].name != r[j].name
      {
        if services[i].vendorId == vid {
          ServiceCountTwo(services, vid, i, j);
        }
      }
    }
  }

  /** Two rows of one vendor make its count at least two. */
  lemma ServiceCountTwo(services: seq<Service>, vid: VendorId, i: nat, j: nat)
    requires i < j < |services| && services[i].vendorId == vid && services[j].vendorId == vid
    requires forall a, b | 0 <= a < b < |services| :: services[a].id != services[b].id
    ensures ServiceCount(services, vid) >= 2
  {
    var r := ServicesByVendor(services, vid);
    assert services[i] in r && services[j] in r;
    var a :| 0 <= a < |r| && r[a] == services[i];
    var b :| 0 <= b < |r| && r[b] == services[j];
    assert a != b;
  }

  /** A count of two or more comes from two different rows of the vendor. */
  lemma {:induction false} TwoRowsOfVendor(services: seq<Service>, vid: VendorId) returns (i: nat, j: nat)
    requires ServiceCount(services, vid) >= 2
    ensures i < j < |services| && services[i].vendorId == vid && services[j].vendorId == vid
  {
    var prefix := services[..|services| - 1];
    var last := services[|services| - 1];
    var rest := ServicesByVendor(prefix, vid);
    if last.vendorId == vid {
      assert rest[0] in prefix;
      var k :| 0 <= k < |prefix| && prefix[k] == rest[0];
      i, j := k, |services| - 1;
    } else {
      i, j := TwoRowsOfVendor(prefix, vid);
    }
  }

  /** Giving one name to two services of a vendor breaks the (name, vendorId) key, so
      the database refuses the update. */
  lemma SharedNameBreaksKey(vendors: map<VendorId, Vendor>, services: seq<Service>, vid: VendorId, name: string, now: int)
    requires ServiceCount(services, vid) >= 2
    ensures !ServicesWellFormed(vendors, PatchAll(services, vid, SetName(name), now))
  {
    var i, j := TwoRowsOfVendor(services, vid);
    var r := PatchAll(services, vid, SetName(name), now);
    assert r[i].name == r[j].name && r[i].vendorId == r[j].vendorId;
  }

  /** The catalogue, as part of the vendor tables; `createService`. `newId` is the id
      the database assigns to a created row, `now` the clock. */
  method CreateService(store: VendorStore, input: ServiceInput, vid: VendorId, now: int, newId: ServiceId)
    returns (r: Result<Service>)
    requires store.Valid()
    requires forall j | 0 <= j < |store.services| :: store.services[j].id != newId && store.services[j].createdAt <= now
    modifies store
    ensures store.Valid()
    ensures store.vendors == old(store.vendors) && store.vendorServices == old(store.vendorServices) &&
            store.accounts == old(store.accounts)
    // connecting to a vendor that does not exist fails and writes nothing
    ensures vid !in old(store.vendors) ==> r == Err(FAILED_UPSERT) && store.services == old(store.services)
    ensures vid in old(store.vendors) ==>
              store.services == Upsert(old(store.services), input, vid, now, newId) &&
              r == Ok(Upserted(old(store.services), input, vid, now, newId))
  {
    if vid !in store.vendors {
      return Err(FAILED_UPSERT);
    }
    UpsertWellFormed(store.vendors, store.services, input, vid, now, newId);
    r := Ok(Upserted(store.services, input, vid, now, newId));
    store.services := Upsert(store.services, input, vid, now, newId);
  }

  /** `updateServiceByVendorId`. */
  method UpdateServiceByVendorId(store: VendorStore, vid: VendorId, patch: ServicePatch, now: int)
    returns (r: Result<nat>)
    requires store.Valid()
    modifies store
    ensures store.Valid()
    ensures store.vendors == old(store.vendors) && store.vendorServices == old(store.vendorServices) &&
            store.accounts == old(store.accounts)
    // one name for two or more services violates the unique key: nothing is written
    ensures patch.SetName? && ServiceCount(old(store.services), vid) >= 2 ==>
              r == Err(FAILED_UPDATE_SERVICES) && store.services == old(store.services)
    ensures !(patch.SetName? && ServiceCount(old(store.services), vid) >= 2) ==>
              r == Ok(ServiceCount(old(store.services), vid)) &&
              store.services == PatchAll(old(store.services), vid, patch, now)
  {
    var count := ServiceCount(store.services, vid);
    if patch.SetName? && count >= 2 {
      SharedNameBreaksKey(store.vendors, store.services, vid, patch.name, now);
      return Err(FAILED_UPDATE_SERVICES);
    }
    PatchAllWellFormed(store.vendors, store.services, vid, patch, now);
    store.services := PatchAll(store.services, vid, patch, now);
    return Ok(count);
  }
}
