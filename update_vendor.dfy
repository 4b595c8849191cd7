/** `updateVendorHandler`: a vendor changes some of its profile columns. The handler
    collects the fields present in the body, checks the two enumerated ones, and passes
    the collection to `updateVendorByUserId` without any service names. */
module UpdateVendorHandler {
  import opened Js
  import opened Http
  import opened VendorTables
  import opened VendorDb

  const USER_NOT_FOUND: string := "User not found"
  const INVALID_YEARS: string := "Invalid yearsInBusiness value."
  const INVALID_CATEGORY: string := "Invalid businessCategory value."
  const NO_FIELDS: string := "No fields provided for update."
  const NO_VENDOR: string := "No vendor found for this user."
  const INTERNAL: string := "Internal server error"
  const UPDATED: string := "Vendor updated successfully"

  /** The seven profile fields of the request body. */
  datatype VendorBody = VendorBody(
    businessName: Field<string>,
    rcNumber: Field<string>,
    nin: Field<string>,
    yearsInBusiness: Field<string>,
    businessCategory: Field<string>,
    phoneNumber: Field<string>,
    businessAddress: Field<string>)

  const ALL_FIELDS: set<VendorField> :=
    {BusinessName, RcNumber, Nin, YearsInBusiness, BusinessCategory, PhoneNumber, BusinessAddress}

  function FieldOf(b: VendorBody, f: VendorField): Field<string>
  {
    match f
    case BusinessName => b.businessName
    case RcNumber => b.rcNumber
    case Nin => b.nin
    case YearsInBusiness => b.yearsInBusiness
    case BusinessCategory => b.businessCategory
    case PhoneNumber => b.phoneNumber
    case BusinessAddress => b.businessAddress
  }

  /** The column value a present field stands for, None for null. The handler passes
      on only bodies without null (see `HasNull`). */
  function Stored(f: Field<string>): (r: Option<string>)
    requires !f.Undefined?
    ensures r.None? <==> f.Null?
    ensures r.Some? ==> r.value == f.v
  {
    if f.Null? then None else Some(f.v)
  }

  lemma AllFieldsListed(f: VendorField)
    ensures f in ALL_FIELDS
  {
    match f
    case BusinessName =>
    case RcNumber =>
    case Nin =>
    case YearsInBusiness =>
    case BusinessCategory =>
    case PhoneNumber =>
    case BusinessAddress =>
  }

  /** The present fields among `fields`. */
  function ProvidedAmong(b: VendorBody, fields: set<VendorField>): map<VendorField, Option<string>>
  {
    map f | f in fields && !FieldOf(b, f).Undefined? :: Stored(FieldOf(b, f))
  }

  /** The reference definition of the update: every field that is not undefined, a
      null as a cleared column. */
  function Provided(b: VendorBody): (m: map<VendorField, Option<string>>)
    ensures forall f :: f in m <==> !FieldOf(b, f).Undefined?
    ensures forall f | f in m :: m[f] == Stored(FieldOf(b, f))
  {
    forall f: VendorField ensures f in ALL_FIELDS { AllFieldsListed(f); }
    ProvidedAmong(b, ALL_FIELDS)
  }

  /** One more field considered: it is added exactly when present. */
  lemma ProvidedAmongStep(b: VendorBody, fields: set<VendorField>, f: VendorField)
    requires f !in fields
    ensures ProvidedAmong(b, fields + {f}) ==
              if FieldOf(b, f).Undefined? then ProvidedAmong(b, fields)
              else ProvidedAmong(b, fields)[f := Stored(FieldOf(b, f))]
  {
  }

  /** A present enumerated field must hold one of the values (null is not one). */
  predicate BadEnum(f: Field<string>, values: set<string>)
  {
    !f.Undefined? && !(f.Value? && f.v in values)
  }

  /** The field-by-field construction of `updateData`. */
  method BuildUpdateData(b: VendorBody, enums: Enums) returns (r: Result<map<VendorField, Option<string>>>)
    ensures r.Err? <==> BadEnum(b.yearsInBusiness, enums.yearsInBusiness) || BadEnum(b.businessCategory, enums.businessCategories)
    // yearsInBusiness is checked first
    ensures BadEnum(b.yearsInBusiness, enums.yearsInBusiness) ==> r == Err(INVALID_YEARS)
    ensures !BadEnum(b.yearsInBusiness, enums.yearsInBusiness) && BadEnum(b.businessCategory, enums.businessCategories) ==>
              r == Err(INVALID_CATEGORY)
    ensures r.Ok? ==> r.value == Provided(b)
  {
    var data: map<VendorField, Option<string>> := map[];
    ghost var seen: set<VendorField> := {};
    ProvidedAmongStep(b, seen, BusinessName);
    if !b.businessName.Undefined? { data := data[BusinessName := Stored(b.businessName)]; }
    seen := seen + {BusinessName};
    assert data == ProvidedAmong(b, seen);
    ProvidedAmongStep(b, seen, RcNumber);
    if !b.rcNumber.Undefined? { data := data[RcNumber := Stored(b.rcNumber)]; }
    seen := seen + {RcNumber};
    assert data == ProvidedAmong(b, seen);
    ProvidedAmongStep(b, seen, Nin);
    if !b.nin.Undefined? { data := data[Nin := Stored(b.nin)]; }
    seen := seen + {Nin};
    assert data == ProvidedAmong(b, seen);
    ProvidedAmongStep(b, seen, YearsInBusiness);
    if !b.yearsInBusiness.Undefined? {
      if BadEnum(b.yearsInBusiness, enums.yearsInBusiness) {
        return Err(INVALID_YEARS);
      }
      data := data[YearsInBusiness := Stored(b.yearsInBusiness)];
    }
    seen := seen + {YearsInBusiness};
    assert data == ProvidedAmong(b, seen);
    ProvidedAmongStep(b, seen, BusinessCategory);
    if !b.businessCategory.Undefined? {
      if BadEnum(b.businessCategory, enums.businessCategories) {
        return Err(INVALID_CATEGORY);
      }
      data := data[BusinessCategory := Stored(b.businessCategory)];
    }
    seen := seen + {BusinessCategory};
    assert data == ProvidedAmong(b, seen);
    ProvidedAmongStep(b, seen, PhoneNumber);
    if !b.phoneNumber.Undefined? { data := data[PhoneNumber := Stored(b.phoneNumber)]; }
    seen := seen + {PhoneNumber};
    assert data == ProvidedAmong(b, seen);
    ProvidedAmongStep(b, seen, BusinessAddress);
    if !b.businessAddress.Undefined? { data := data[BusinessAddress := Stored(b.businessAddress)]; }
    seen := seen + {BusinessAddress};
    assert seen == ALL_FIELDS;
    return Ok(data);
  }

  /** The update is empty exactly when every field is undefined. */
  lemma ProvidedEmpty(b: VendorBody)
    ensures Provided(b) == map[] <==> forall f :: FieldOf(b, f).Undefined?
  {
    if Provided(b) == map[] {
      forall f ensures FieldOf(b, f).Undefined? {
        assert f !in Provided(b);
      }
    }
  }

  /** A field of the body is null. The profile columns are required, so Prisma refuses
      such an update before it writes anything. */
  predicate HasNull(b: VendorBody)
  {
    exists f :: FieldOf(b, f).Null?
  }

  /** The update clears a column exactly when the body holds a null. */
  lemma NullIffClearedColumn(b: VendorBody)
    ensures HasNull(b) <==> exists f | f in Provided(b) :: Provided(b)[f].None?
  {
    if HasNull(b) {
      var f :| FieldOf(b, f).Null?;
      assert f in Provided(b) && Provided(b)[f].None?;
    }
  }

  /** `updateVendorHandler`. `auth` is the authenticated user's id. */
  method UpdateVendor(store: VendorStore, auth: Field<string>, body: VendorBody, enums: Enums, now: int)
    returns (resp: Response)
    requires store.Valid()
    modifies store
    ensures store.Valid()
    // no service names are passed, so the service rows are untouched
    ensures store.vendorServices == old(store.vendorServices) && store.services == old(store.services) &&
            store.accounts == old(store.accounts)
    ensures !Truthy(auth) ==> resp == Internal(USER_NOT_FOUND) && store.vendors == old(store.vendors)
    ensures Truthy(auth) && BadEnum(body.yearsInBusiness, enums.yearsInBusiness) ==>
              resp == BadRequest(INVALID_YEARS) && store.vendors == old(store.vendors)
    ensures Truthy(auth) && !BadEnum(body.yearsInBusiness, enums.yearsInBusiness) &&
            BadEnum(body.businessCategory, enums.businessCategories) ==>
              resp == BadRequest(INVALID_CATEGORY) && store.vendors == old(store.vendors)
    ensures Truthy(auth) && !BadEnum(body.yearsInBusiness, enums.yearsInBusiness) &&
            !BadEnum(body.businessCategory, enums.businessCategories) ==>
              (Provided(body) == map[] ==> resp == BadRequest(NO_FIELDS) && store.vendors == old(store.vendors)) &&
              // a null on a required column is refused by the database and caught
              (Provided(body) != map[] && HasNull(body) ==>
                 resp == Internal(INTERNAL) && store.vendors == old(store.vendors)) &&
              (Provided(body) != map[] && !HasNull(body) ==>
                 store.vendors == UpdateProfiles(old(store.vendors), auth.v, Provided(body), now) &&
                 // a user without a vendor updates no row
                 resp == (if HasVendorOfUser(old(store.vendors), auth.v) then Respond(OK, UPDATED)
                          else BadRequest(NO_VENDOR)))
  {
    if !Truthy(auth) {
      return Internal(USER_NOT_FOUND);
    }
    var data := BuildUpdateData(body, enums);
    if data.Err? {
      return BadRequest(data.message);
    }
    if data.value == map[] {
      return BadRequest(NO_FIELDS);
    }
    NullIffClearedColumn(body);
    if exists f | f in data.value :: data.value[f].None? {
      return Internal(INTERNAL);
    }
    var result := UpdateVendorByUserId(store, auth.v, data.value, [], now, enums);
    match result
    case Err(_) =>
      assert false;
    case Ok(count) =>
      if count == 0 {
        return BadRequest(NO_VENDOR);
      }
      return Respond(OK, UPDATED);
  }
}
