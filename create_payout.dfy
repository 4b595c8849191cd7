/** `createPayoutAccountHandler`: a vendor registers the bank account it is paid into. */
module CreatePayoutHandler {
  import opened Js
  import opened Http
  import opened VendorTables
  import opened VendorAccountDb

  const USER_NOT_FOUND: string := "User not found"
  const MISSING_FIELDS: string := "Missing required fields."
  const INVALID_ACCOUNT_TYPE: string := "Invalid accountType value."
  const VENDOR_NOT_FOUND: string := "Vendor not found for user."
  const INTERNAL: string := "Internal server error"
  /** `VerificationStatus.PENDING`. */
  const VERIFICATION_PENDING: string := "PENDING"

  /** The request body. The three document links are optional. */
  datatype PayoutBody = PayoutBody(
    bankName: Field<string>,
    accountHolderName: Field<string>,
    accountNumber: Field<string>,
    accountType: Field<string>,
    utilityBillUrl: Field<string>,
    validIdUrl: Field<string>,
    businessCertUrl: Field<string>)

  predicate BankingPresent(b: PayoutBody)
  {
    Truthy(b.bankName) && Truthy(b.accountHolderName) && Truthy(b.accountNumber) && Truthy(b.accountType)
  }

  /** The checks both payout handlers make before looking the vendor up. */
  function PayoutError(b: PayoutBody, enums: Enums): (r: Option<string>)
    ensures r.None? <==> BankingPresent(b) && b.accountType.v in enums.accountTypes
    ensures !BankingPresent(b) ==> r == Some(MISSING_FIELDS)
    ensures BankingPresent(b) && b.accountType.v !in enums.accountTypes ==> r == Some(INVALID_ACCOUNT_TYPE)
  {
    if !BankingPresent(b) then Some(MISSING_FIELDS)
    else if b.accountType.v !in enums.accountTypes then Some(INVALID_ACCOUNT_TYPE)
    else None
  }

  /** The document links do not take part in the checks. */
  lemma DocumentsOptional(b: PayoutBody, enums: Enums, u: Field<string>, v: Field<string>, c: Field<string>)
    ensures PayoutError(b, enums) == PayoutError(b.(utilityBillUrl := u, validIdUrl := v, businessCertUrl := c), enums)
  {
  }

  /** The banking details of a checked body: the four required fields. */
  function BankingOf(b: PayoutBody): (d: Banking)
    requires BankingPresent(b)
    ensures d.bankName == b.bankName.v && d.accountHolderName == b.accountHolderName.v
    ensures d.accountNumber == b.accountNumber.v && d.accountType == b.accountType.v
  {
    Banking(b.bankName.v, b.accountHolderName.v, b.accountNumber.v, b.accountType.v)
  }

  /** The document links play no part in the banking details. */
  lemma BankingOfIgnoresDocuments(b: PayoutBody, u: Field<string>, v: Field<string>, c: Field<string>)
    requires BankingPresent(b)
    ensures BankingOf(b.(utilityBillUrl := u, validIdUrl := v, businessCertUrl := c)) == BankingOf(b)
  {
  }

  /** What the handler passes to `createVendorAccount`: the body and a pending status. */
  function AccountInputOf(b: PayoutBody): (input: AccountInput)
    requires BankingPresent(b)
    ensures input.verificationStatus == VERIFICATION_PENDING
    ensures Banking(input.bankName, input.accountHolderName, input.accountNumber, input.accountType) == BankingOf(b)
    ensures input.utilityBillUrl == b.utilityBillUrl && input.validIdUrl == b.validIdUrl &&
            input.businessCertUrl == b.businessCertUrl
  {
    AccountInput(b.bankName.v, b.accountHolderName.v, b.accountNumber.v, b.accountType.v,
                 b.utilityBillUrl, b.validIdUrl, b.businessCertUrl, VERIFICATION_PENDING)
  }

  /** `createPayoutAccountHandler`. `auth` is the authenticated user's id; `newId` the
      id the database gives the account. */
  method CreatePayoutAccount(store: VendorStore, auth: Field<string>, body: PayoutBody, enums: Enums,
                             newId: string, now: int)
    returns (resp: Response, account: Option<VendorAccount>)
    requires store.Valid()
    modifies store
    ensures store.Valid()
    ensures store.vendors == old(store.vendors) && store.vendorServices == old(store.vendorServices) &&
            store.services == old(store.services)
    ensures resp.IsSuccess() <==> account.Some?
    ensures !Truthy(auth) ==> resp == Internal(USER_NOT_FOUND) && store.accounts == old(store.accounts)
    ensures Truthy(auth) && PayoutError(body, enums).Some? ==>
              resp == BadRequest(PayoutError(body, enums).value) && store.accounts == old(store.accounts)
    // the vendor is looked up only after the body passed
    ensures Truthy(auth) && PayoutError(body, enums).None? && !HasVendorOfUser(old(store.vendors), auth.v) ==>
              resp == BadRequest(VENDOR_NOT_FOUND) && store.accounts == old(store.accounts)
    ensures Truthy(auth) && PayoutError(body, enums).None? && HasVendorOfUser(old(store.vendors), auth.v) ==>
              var vid := VendorOfUser(old(store.vendors), auth.v);
              var a := NewAccount(vid, AccountInputOf(body), newId, now);
              // a second account for the vendor is refused
              (vid in old(store.accounts) ==> resp == Internal(INTERNAL) && store.accounts == old(store.accounts)) &&
              (vid !in old(store.accounts) ==>
                 resp == Respond(CREATED, "") && account == Some(a) && store.accounts == old(store.accounts)[vid := a])
  {
    if !Truthy(auth) {
      return Internal(USER_NOT_FOUND), None;
    }
    var error := PayoutError(body, enums);
    if error.Some? {
      return BadRequest(error.value), None;
    }
    if !HasVendorOfUser(store.vendors, auth.v) {
      return BadRequest(VENDOR_NOT_FOUND), None;
    }
    var vid :| vid in store.vendors && store.vendors[vid].userId == auth.v;
    VendorOfUserUnique(store.vendors, vid);
    var r := CreateVendorAccount(store, vid, AccountInputOf(body), newId, now);
    if r.Err? {
      return Internal(INTERNAL), None;
    }
    return Respond(CREATED, ""), Some(r.value);
  }
}
