/** `createVendorHandler`: the checks on a new vendor's profile and the data it
    forwards. The function it forwards to, `createVendor`, is not among the exports of
    the vendor database module, so only the validation and the forwarded data are
    modelled. */
module CreateVendorHandler {
  import opened Js
  import opened VendorTables
  import opened UpdateVendorHandler

  const MISSING_FIELDS: string := "Missing required fields."

  /** The seven columns forwarded on success; no user id is among them. */
  datatype VendorData = VendorData(
    businessName: string,
    rcNumber: string,
    nin: string,
    yearsInBusiness: string,
    businessCategory: string,
    phoneNumber: string,
    businessAddress: string)

  predicate AllPresent(b: VendorBody)
  {
    Truthy(b.businessName) && Truthy(b.rcNumber) && Truthy(b.nin) && Truthy(b.yearsInBusiness) &&
    Truthy(b.businessCategory) && Truthy(b.phoneNumber) && Truthy(b.businessAddress)
  }

  /** Presence is checked for every profile field. */
  lemma AllPresentEveryField(b: VendorBody)
    ensures AllPresent(b) <==> forall f :: Truthy(FieldOf(b, f))
  {
    if forall f :: Truthy(FieldOf(b, f)) {
      assert Truthy(FieldOf(b, BusinessName)) && Truthy(FieldOf(b, RcNumber)) && Truthy(FieldOf(b, Nin)) &&
             Truthy(FieldOf(b, YearsInBusiness)) && Truthy(FieldOf(b, BusinessCategory)) &&
             Truthy(FieldOf(b, PhoneNumber)) && Truthy(FieldOf(b, BusinessAddress));
    }
  }

  /** The checks of `createVendorHandler`, in its order: presence of all seven fields,
      then yearsInBusiness, then businessCategory. */
  function ValidateVendor(b: VendorBody, enums: Enums): (r: Result<VendorData>)
    ensures r.Ok? <==> AllPresent(b) && b.yearsInBusiness.v in enums.yearsInBusiness &&
                       b.businessCategory.v in enums.businessCategories
    ensures !AllPresent(b) ==> r == Err(MISSING_FIELDS)
    ensures AllPresent(b) && b.yearsInBusiness.v !in enums.yearsInBusiness ==> r == Err(INVALID_YEARS)
    ensures AllPresent(b) && b.yearsInBusiness.v in enums.yearsInBusiness && b.businessCategory.v !in enums.businessCategories ==>
              r == Err(INVALID_CATEGORY)
    // exactly the seven body fields are forwarded, unchanged
    ensures r.Ok? ==> forall f :: FieldOf(b, f) == Value(DataField(r.value, f))
  {
    if !AllPresent(b) then Err(MISSING_FIELDS)
    else if b.yearsInBusiness.v !in enums.yearsInBusiness then Err(INVALID_YEARS)
    else if b.businessCategory.v !in enums.businessCategories then Err(INVALID_CATEGORY)
    else Ok(VendorData(b.businessName.v, b.rcNumber.v, b.nin.v, b.yearsInBusiness.v, b.businessCategory.v,
                       b.phoneNumber.v, b.businessAddress.v))
  }

  function DataField(d: VendorData, f: VendorField): string
  {
    match f
    case BusinessName => d.businessName
    case RcNumber => d.rcNumber
    case Nin => d.nin
    case YearsInBusiness => d.yearsInBusiness
    case BusinessCategory => d.businessCategory
    case PhoneNumber => d.phoneNumber
    case BusinessAddress => d.businessAddress
  }

  /** A body the create handler accepts is also a complete, valid update. */
  lemma AcceptedBodyIsValidUpdate(b: VendorBody, enums: Enums)
    requires ValidateVendor(b, enums).Ok?
    ensures !BadEnum(b.yearsInBusiness, enums.yearsInBusiness) && !BadEnum(b.businessCategory, enums.businessCategories)
    ensures Provided(b).Keys == ALL_FIELDS
    ensures !HasNull(b)
  {
    AllPresentEveryField(b);
    forall f ensures f in Provided(b) {
      assert Truthy(FieldOf(b, f));
    }
    forall f | f in ALL_FIELDS ensures f in Provided(b) { }
    forall f | f in Provided(b) ensures f in ALL_FIELDS { AllFieldsListed(f); }
  }
}
