/** The vendor-side tables: vendors, the service names a vendor offers per category,
    the catalogue of services, and payout accounts, with the constraints the database
    keeps on them. */
module VendorTables {
  import opened Js

  type VendorId = string
  type ServiceId = string
  type UserId = string
  /** A price as the request body carries it. */
  type Price = int

  /** The Prisma enumerations whose values are not part of this model. */
  datatype Enums = Enums(
    serviceNames: set<string>,
    availableHours: set<string>,
    yearsInBusiness: set<string>,
    businessCategories: set<string>,
    accountTypes: set<string>)

  const VENDOR_PENDING: string := "PENDING"

  /** The profile columns of a vendor that the handlers read and write. */
  datatype VendorField = BusinessName | RcNumber | Nin | YearsInBusiness | BusinessCategory | PhoneNumber | BusinessAddress

  /** A vendor row. `profile` maps each profile column to its value (None for null). */
  datatype Vendor = Vendor(
    id: VendorId,
    userId: UserId,
    profile: map<VendorField, Option<string>>,
    serviceCategory: string,
    status: string,
    updatedAt: int)

  /** A `VendorService` row: one service name a vendor offers in a category. */
  datatype VendorService = VendorService(vendorId: VendorId, name: string, category: string)

  /** A `Service` row of the catalogue. */
  datatype Service = Service(
    id: ServiceId,
    name: string,
    vendorId: VendorId,
    description: string,
    images: seq<string>,
    serviceCategory: Option<string>,
    location: string,
    pricingModel: string,
    availableHours: Option<string>,
    minPrice: Option<Price>,
    maxPrice: Option<Price>,
    fixedPrice: Option<Price>,
    startingPrice: Option<Price>,
    createdAt: int,
    updatedAt: int)

  /** A `VendorAccount` row: the payout details of one vendor. */
  datatype VendorAccount = VendorAccount(
    id: string,
    vendorId: VendorId,
    bankName: string,
    accountHolderName: string,
    accountNumber: string,
    accountType: string,
    utilityBillUrl: Option<string>,
    validIdUrl: Option<string>,
    businessCertUrl: Option<string>,
    verificationStatus: string,
    updatedAt: int)

  /** The number of rows a vendor has in a category. */
  function CountFor(rows: seq<VendorService>, vid: VendorId, category: string): (n: nat)
    ensures n <= |rows|
  {
    if rows == [] then 0
    else CountFor(rows[..|rows| - 1], vid, category) +
         (if rows[|rows| - 1].vendorId == vid && rows[|rows| - 1].category == category then 1 else 0)
  }

  lemma {:induction false} CountForAppend(a: seq<VendorService>, b: seq<VendorService>, vid: VendorId, category: string)
    ensures CountFor(a + b, vid, category) == CountFor(a, vid, category) + CountFor(b, vid, category)
  {
    if b != [] {
      CountForAppend(a, b[..|b| - 1], vid, category);
      assert (a + b)[..|a + b| - 1] == a + b[..|b| - 1];
    } else {
      assert a + b == a;
    }
  }

  /** A vendor with no rows at all has none in any category. */
  lemma {:induction false} CountForAbsent(rows: seq<VendorService>, vid: VendorId, category: string)
    requires forall j | 0 <= j < |rows| :: rows[j].vendorId != vid
    ensures CountFor(rows, vid, category) == 0
  {
    if rows != [] {
      CountForAbsent(rows[..|rows| - 1], vid, category);
    }
  }

  /** Vendor ids are the map keys and every vendor belongs to a different user. */
  predicate VendorsWellFormed(vendors: map<VendorId, Vendor>)
  {
    (forall vid | vid in vendors :: vendors[vid].id == vid) &&
    forall a, b | a in vendors && b in vendors && a != b :: vendors[a].userId != vendors[b].userId
  }

  /** Every row belongs to an existing vendor and to that vendor's category, and no vendor
      has more than two. */
  predicate VendorServicesWellFormed(vendors: map<VendorId, Vendor>, rows: seq<VendorService>)
  {
    (forall j | 0 <= j < |rows| :: rows[j].vendorId in vendors &&
                                  rows[j].category == vendors[rows[j].vendorId].serviceCategory) &&
    forall vid | vid in vendors :: CountFor(rows, vid, vendors[vid].serviceCategory) <= 2
  }

  /** Ids and (name, vendorId) pairs are unique, every service has an existing vendor,
      and rows are stored in creation order. */
  predicate ServicesWellFormed(vendors: map<VendorId, Vendor>, services: seq<Service>)
  {
    (forall j | 0 <= j < |services| :: services[j].vendorId in vendors) &&
    (forall i, j | 0 <= i < j < |services| :: services[i].id != services[j].id) &&
    (forall i, j | 0 <= i < j < |services| ::
       services[i].name != services[j].name || services[i].vendorId != services[j].vendorId) &&
    forall i, j | 0 <= i < j < |services| :: services[i].createdAt <= services[j].createdAt
  }

  /** One account per vendor, keyed by the vendor id, for existing vendors only. */
  predicate AccountsWellFormed(vendors: map<VendorId, Vendor>, accounts: map<VendorId, VendorAccount>)
  {
    forall vid | vid in accounts :: accounts[vid].vendorId == vid && vid in vendors
  }

  predicate TablesConsistent(vendors: map<VendorId, Vendor>, rows: seq<VendorService>, services: seq<Service>,
                             accounts: map<VendorId, VendorAccount>)
  {
    VendorsWellFormed(vendors) && VendorServicesWellFormed(vendors, rows) &&
    ServicesWellFormed(vendors, services) && AccountsWellFormed(vendors, accounts)
  }

  /** `getVendorByUserId` finds a row. */
  predicate HasVendorOfUser(vendors: map<VendorId, Vendor>, userId: UserId)
  {
    exists vid | vid in vendors :: vendors[vid].userId == userId
  }

  /** The vendor `getVendorByUserId` returns. */
  ghost function VendorOfUser(vendors: map<VendorId, Vendor>, userId: UserId): (vid: VendorId)
    requires HasVendorOfUser(vendors, userId)
    ensures vid in vendors && vendors[vid].userId == userId
  {
    var vid :| vid in vendors && vendors[vid].userId == userId; vid
  }

  /** Under the unique user constraint the lookup has one answer. */
  lemma VendorOfUserUnique(vendors: map<VendorId, Vendor>, vid: VendorId)
    requires VendorsWellFormed(vendors) && vid in vendors
    ensures VendorOfUser(vendors, vendors[vid].userId) == vid
  {
  }

  /** The tables, updated in place by the vendor operations. */
  class VendorStore {
    var vendors: map<VendorId, Vendor>
    var vendorServices: seq<VendorService>
    var services: seq<Service>
    var accounts: map<VendorId, VendorAccount>

    ghost predicate Valid()
      reads this
    {
      TablesConsistent(vendors, vendorServices, services, accounts)
    }

    constructor()
      ensures Valid() && vendors == map[] && vendorServices == [] && services == [] && accounts == map[]
    {
      vendors := map[];
      vendorServices := [];
      services := [];
      accounts := map[];
    }
  }
}
