/** The payout account operations: one account per vendor, keyed by the vendor id. */
module VendorAccountDb {
  import opened Js
  import opened VendorTables

  const FAILED_CREATE_ACCOUNT: string := "Failed to create VendorAccount"

  /** The columns `createVendorAccount` is given besides the vendor id. */
  datatype AccountInput = AccountInput(
    bankName: string,
    accountHolderName: string,
    accountNumber: string,
    accountType: string,
    utilityBillUrl: Field<string>,
    validIdUrl: Field<string>,
    businessCertUrl: Field<string>,
    verificationStatus: string)

  /** The four banking columns `updateVendorAccount` is given. */
  datatype Banking = Banking(bankName: string, accountHolderName: string, accountNumber: string, accountType: string)

  /** The row `vendorAccount.create` inserts: linked to the vendor, the rest as given. */
  function NewAccount(vid: VendorId, input: AccountInput, newId: string, now: int): (a: VendorAccount)
    ensures a.vendorId == vid && a.id == newId && a.verificationStatus == input.verificationStatus
    ensures a.bankName == input.bankName && a.accountHolderName == input.accountHolderName &&
            a.accountNumber == input.accountNumber && a.accountType == input.accountType
    // an omitted document link is stored as null
    ensures a.utilityBillUrl == Write(None, input.utilityBillUrl) && a.validIdUrl == Write(None, input.validIdUrl) &&
            a.businessCertUrl == Write(None, input.businessCertUrl)
  {
    VendorAccount(newId, vid, input.bankName, input.accountHolderName, input.accountNumber, input.accountType,
                  Write(None, input.utilityBillUrl), Write(None, input.validIdUrl), Write(None, input.businessCertUrl),
                  input.verificationStatus, now)
  }

  /** The banking columns and updatedAt change; the link, the documents and the
      verification status stay. */
  function WithBanking(a: VendorAccount, b: Banking, now: int): (r: VendorAccount)
    ensures r.(bankName := a.bankName, accountHolderName := a.accountHolderName, accountNumber := a.accountNumber,
               accountType := a.accountType, updatedAt := a.updatedAt) == a
    ensures Banking(r.bankName, r.accountHolderName, r.accountNumber, r.accountType) == b && r.updatedAt == now
  {
    a.(bankName := b.bankName, accountHolderName := b.accountHolderName, accountNumber := b.accountNumber,
       accountType := b.accountType, updatedAt := now)
  }

  /** Updating the same account twice keeps only the second set of banking details. */
  lemma WithBankingLastWins(a: VendorAccount, b1: Banking, b2: Banking, t1: int, t2: int)
    ensures WithBanking(WithBanking(a, b1, t1), b2, t2) == WithBanking(a, b2, t2)
  {
  }

  /** `getVendorAccountByVendorId`. */
  function GetVendorAccountByVendorId(vendors: map<VendorId, Vendor>, accounts: map<VendorId, VendorAccount>,
                                      vid: VendorId): (r: Option<VendorAccount>)
    requires AccountsWellFormed(vendors, accounts)
    ensures r.Some? <==> vid in accounts
    // found accounts belong to the vendor asked for, which exists
    ensures r.Some? ==> r.value.vendorId == vid && vid in vendors
  {
    if vid in accounts then Some(accounts[vid]) else None
  }

  /** `createVendorAccount`. Linking to a missing vendor, or a second account for a
      vendor, is refused by the database. */
  method CreateVendorAccount(store: VendorStore, vid: VendorId, input: AccountInput, newId: string, now: int)
    returns (r: Result<VendorAccount>)
    requires store.Valid()
    modifies store
    ensures store.Valid()
    ensures store.vendors == old(store.vendors) && store.vendorServices == old(store.vendorServices) &&
            store.services == old(store.services)
    ensures vid !in old(store.vendors) || vid in old(store.accounts) ==>
              r == Err(FAILED_CREATE_ACCOUNT) && store.accounts == old(store.accounts)
    ensures vid in old(store.vendors) && vid !in old(store.accounts) ==>
              r == Ok(NewAccount(vid, input, newId, now)) &&
              store.accounts == old(store.accounts)[vid := NewAccount(vid, input, newId, now)]
  {
    if vid !in store.vendors || vid in store.accounts {
      return Err(FAILED_CREATE_ACCOUNT);
    }
    var a := NewAccount(vid, input, newId, now);
    store.accounts := store.accounts[vid := a];
    return Ok(a);
  }

  /** `updateVendorAccount`: `updateMany` on the vendor id, whose count is 1 when the
      vendor has an account and 0 otherwise. */
  method UpdateVendorAccount(store: VendorStore, vid: VendorId, b: Banking, now: int) returns (count: nat)
    requires store.Valid()
    modifies store
    ensures store.Valid()
    ensures store.vendors == old(store.vendors) && store.vendorServices == old(store.vendorServices) &&
            store.services == old(store.services)
    ensures count <= 1 && (count == 1 <==> vid in old(store.accounts))
    ensures vid !in old(store.accounts) ==> store.accounts == old(store.accounts)
    ensures vid in old(store.accounts) ==>
              store.accounts == old(store.accounts)[vid := WithBanking(old(store.accounts)[vid], b, now)]
  {
    if vid !in store.accounts {
      return 0;
    }
    store.accounts := store.accounts[vid := WithBanking(store.accounts[vid], b, now)];
    return 1;
  }
}
