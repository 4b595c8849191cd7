/** `createServiceHandler`: a vendor adds (or refreshes) a service in the catalogue.
    The body is checked for required fields, enumeration values and the price fields
    its pricing model needs before the vendor is looked up. */
module CreateServiceHandler {
  import opened Js
  import opened Http
  import opened VendorTables
  import opened ServiceDb

  const USER_NOT_FOUND: string := "User not found"
  const MISSING_FIELDS: string := "Missing required fields."
  const INVALID_PRICING_MODEL: string := "Invalid pricing model."
  const INVALID_HOURS: string := "Invalid available hours."
  const FIXED_PRICE_REQUIRED: string := "fixedPrice is required for FixedPrice pricing model."
  const RANGE_REQUIRED: string := "minPrice and maxPrice are required for PriceRange pricing model."
  const STARTING_REQUIRED: string := "fixedPrice is required for StartingFrom pricing model."
  const QUOTE_NO_PRICES: string := "All pricing fields must be null for CustomQuote pricing model."
  const VENDOR_NOT_FOUND: string := "Vendor profile not found for user."

  const FIXED_PRICE: string := "FixedPrice"
  const PRICE_RANGE: string := "PriceRange"
  const STARTING_FROM: string := "StartingFrom"
  const CUSTOM_QUOTE: string := "CustomQuote"
  /** `PricingModel`. */
  const PRICING_MODELS: set<string> := {FIXED_PRICE, PRICE_RANGE, STARTING_FROM, CUSTOM_QUOTE}

  /** The request body. An array field is truthy whenever it is present, even empty. */
  datatype ServiceBody = ServiceBody(
    name: Field<string>,
    description: Field<string>,
    images: Field<seq<string>>,
    location: Field<string>,
    pricingModel: Field<string>,
    availableHours: Field<string>,
    minPrice: Field<Price>,
    maxPrice: Field<Price>,
    fixedPrice: Field<Price>,
    startingPrice: Field<Price>)

  predicate HasRequired(b: ServiceBody)
  {
    Truthy(b.name) && Truthy(b.description) && b.images.Value? && Truthy(b.location) &&
    Truthy(b.pricingModel) && Truthy(b.availableHours)
  }

  /** The price rules, one per pricing model, as independent conditions. StartingFrom
      asks for fixedPrice; no model compares minPrice with maxPrice. */
  predicate PricingOk(b: ServiceBody)
    requires b.pricingModel.Value?
  {
    var m := b.pricingModel.v;
    (m == FIXED_PRICE ==> !Nullish(b.fixedPrice)) &&
    (m == PRICE_RANGE ==> !Nullish(b.minPrice) && !Nullish(b.maxPrice)) &&
    (m == STARTING_FROM ==> !Nullish(b.fixedPrice)) &&
    (m == CUSTOM_QUOTE ==> Nullish(b.minPrice) && Nullish(b.maxPrice) && Nullish(b.fixedPrice) && Nullish(b.startingPrice))
  }

  /** The `if / else if` chain over the pricing model. */
  function PricingError(b: ServiceBody): (r: Option<string>)
    requires b.pricingModel.Value?
    ensures r.None? <==> PricingOk(b)
    ensures r.Some? ==> r.value in {FIXED_PRICE_REQUIRED, RANGE_REQUIRED, STARTING_REQUIRED, QUOTE_NO_PRICES}
  {
    var m := b.pricingModel.v;
    if m == FIXED_PRICE then
      if Nullish(b.fixedPrice) then Some(FIXED_PRICE_REQUIRED) else None
    else if m == PRICE_RANGE then
      if Nullish(b.minPrice) || Nullish(b.maxPrice) then Some(RANGE_REQUIRED) else None
    else if m == STARTING_FROM then
      if Nullish(b.fixedPrice) then Some(STARTING_REQUIRED) else None
    else if m == CUSTOM_QUOTE then
      if !Nullish(b.minPrice) || !Nullish(b.maxPrice) || !Nullish(b.fixedPrice) || !Nullish(b.startingPrice)
      then Some(QUOTE_NO_PRICES) else None
    else None
  }

  /** The body passes every check. */
  predicate Acceptable(b: ServiceBody, enums: Enums)
  {
    HasRequired(b) && b.pricingModel.v in PRICING_MODELS && b.availableHours.v in enums.availableHours && PricingOk(b)
  }

  /** The first failing check, in the order the handler makes them. */
  function ValidationError(b: ServiceBody, enums: Enums): (r: Option<string>)
    ensures r.None? <==> Acceptable(b, enums)
    ensures !HasRequired(b) ==> r == Some(MISSING_FIELDS)
    ensures HasRequired(b) && b.pricingModel.v !in PRICING_MODELS ==> r == Some(INVALID_PRICING_MODEL)
    ensures HasRequired(b) && b.pricingModel.v in PRICING_MODELS && b.availableHours.v !in enums.availableHours ==>
              r == Some(INVALID_HOURS)
    ensures HasRequired(b) && b.pricingModel.v in PRICING_MODELS && b.availableHours.v in enums.availableHours ==>
              r == PricingError(b)
  {
    if !HasRequired(b) then Some(MISSING_FIELDS)
    else if b.pricingModel.v !in PRICING_MODELS then Some(INVALID_PRICING_MODEL)
    else if b.availableHours.v !in enums.availableHours then Some(INVALID_HOURS)
    else PricingError(b)
  }

  /** StartingFrom is satisfied by fixedPrice alone and refused with startingPrice alone. */
  lemma StartingFromNeedsFixedPrice(b: ServiceBody, p: Price)
    requires b.pricingModel == Value(STARTING_FROM)
    ensures PricingError(b.(fixedPrice := Value(p))).None?
    ensures PricingError(b.(fixedPrice := Null, startingPrice := Value(p))) == Some(STARTING_REQUIRED)
  {
  }

  /** A price range whose minimum exceeds its maximum is accepted. */
  lemma InvertedRangeAccepted(b: ServiceBody, lo: Price, hi: Price)
    requires b.pricingModel == Value(PRICE_RANGE) && lo > hi
    ensures PricingError(b.(minPrice := Value(lo), maxPrice := Value(hi))).None?
  {
  }

  /** An empty image list passes the required-fields check. */
  lemma EmptyImagesPresent(b: ServiceBody)
    requires b.images == Value([])
    ensures HasRequired(b) <==> Truthy(b.name) && Truthy(b.description) && Truthy(b.location) &&
                                Truthy(b.pricingModel) && Truthy(b.availableHours)
  {
  }

  /** The `data` the handler gives `createService`: serviceCategory is not passed. */
  function InputOf(b: ServiceBody): (input: ServiceInput)
    requires HasRequired(b)
    ensures input.name == b.name.v && input.description == b.description.v && input.images == b.images.v
    ensures input.location == b.location.v && input.pricingModel == b.pricingModel.v
    ensures input.serviceCategory == Undefined && input.availableHours == b.availableHours
    ensures input.minPrice == b.minPrice && input.maxPrice == b.maxPrice &&
            input.fixedPrice == b.fixedPrice && input.startingPrice == b.startingPrice
  {
    ServiceInput(b.name.v, b.description.v, b.images.v, Undefined, b.location.v, b.pricingModel.v,
                 b.availableHours, b.minPrice, b.maxPrice, b.fixedPrice, b.startingPrice)
  }

  /** `createServiceHandler`. `auth` is the authenticated user's id. */
  method CreateService(store: VendorStore, auth: Field<string>, body: ServiceBody, enums: Enums,
                       now: int, newId: ServiceId)
    returns (resp: Response, service: Option<Service>)
    requires store.Valid()
    requires forall j | 0 <= j < |store.services| :: store.services[j].id != newId && store.services[j].createdAt <= now
    modifies store
    ensures store.Valid()
    ensures store.vendors == old(store.vendors) && store.vendorServices == old(store.vendorServices) &&
            store.accounts == old(store.accounts)
    ensures resp.IsSuccess() <==> service.Some?
    // only an authenticated, valid request for a user with a vendor profile writes
    ensures !(Truthy(auth) && Acceptable(body, enums) && HasVendorOfUser(old(store.vendors), auth.v)) ==>
              store.services == old(store.services)
    ensures !Truthy(auth) ==> resp == Internal(USER_NOT_FOUND)
    ensures Truthy(auth) && !Acceptable(body, enums) ==> resp == BadRequest(ValidationError(body, enums).value)
    ensures Truthy(auth) && Acceptable(body, enums) && !HasVendorOfUser(old(store.vendors), auth.v) ==>
              resp == BadRequest(VENDOR_NOT_FOUND)
    ensures Truthy(auth) && Acceptable(body, enums) && HasVendorOfUser(old(store.vendors), auth.v) ==>
              var vid := VendorOfUser(old(store.vendors), auth.v);
              resp == Respond(CREATED, "") &&
              store.services == Upsert(old(store.services), InputOf(body), vid, now, newId) &&
              service == Some(Upserted(old(store.services), InputOf(body), vid, now, newId))
  {
    if !Truthy(auth) {
      return Internal(USER_NOT_FOUND), None;
    }
    var error := ValidationError(body, enums);
    if error.Some? {
      return BadRequest(error.value), None;
    }
    if !HasVendorOfUser(store.vendors, auth.v) {
      return BadRequest(VENDOR_NOT_FOUND), None;
    }
    var vid :| vid in store.vendors && store.vendors[vid].userId == auth.v;
    VendorOfUserUnique(store.vendors, vid);
    var r := ServiceDb.CreateService(store, InputOf(body), vid, now, newId);
    match r
    case Err(_) =>
      // the vendor was just found, so connecting to it succeeds
      assert false;
    case Ok(s) =>
      return Respond(CREATED, ""), Some(s);
  }
}
