# Ajsrental backend: a Dafny model of its core

Ajsrental is an Express/Prisma backend for a rental marketplace. Users sign up and
confirm an e-mail address or a phone number with a one-time password (OTP). A user who
becomes a vendor registers a business profile, the service names it offers, the
services in its catalogue and a payout bank account. An administrator approves or
rejects vendors.

This project models the parts of that backend that hold logic. Each handler is a method
over the tables it reads and writes, and each contract states what the handler answers
and what the tables look like afterwards.

The model has these layers:

- **JavaScript and Prisma value rules** (`Js`). A request-body field is undefined, null
  or a value. The module also covers truthiness, `trim`, `toUpperCase`, and the Prisma
  rule that an undefined column in `data` is left as it is.
- **Answers** (`Http`). A status and a message, or no answer at all.
- **Pure helpers.** Phone formatting (`PhoneService`), the 4-digit code and its expiry
  (`OtpCode`), the e-mail and phone regular expressions (`Validations`), and the mapping
  of the SMS provider's replies (`Termii`).
- **Identity tables** (`Identity.IdentityStore`). A class with two maps: users, and the
  verification ledger.
  - The ledger is keyed by e-mail or by phone.
  - The handlers that update these tables in place are `OtpHandlers.SendOtp`,
    `VerifyOtp` and `ResendOtp`, plus `SignUpHandler.SignUp`,
    `ChangePasswordHandler.ChangePassword` and `SetRoleHandler.SetRole`.
- **Vendor tables** (`VendorTables.VendorStore`). Vendors, vendor service names,
  catalogue services and payout accounts.
  - `VendorDb`: the two loops that cap a vendor at two service names in its category.
  - `ServiceDb`: the catalogue upsert keyed by (name, vendorId), the listing by vendor,
    and the bulk update.
  - `VendorAccountDb`: the payout accounts.
  - The handlers built on these: create service, update vendor, create vendor
    (validation only), update location, update service name, create and update payout
    information, and the admin status change (`VendorStatusAdmin`).

Outside inputs are parameters:

- the clock (`now`, in milliseconds);
- the random draw of the code (`draw`);
- bcrypt's `hash` and `compare`;
- the ids the database assigns;
- the SMS provider's reply;
- whether the e-mail was delivered.

What a handler sends out (an SMS request, an e-mail carrying a code) is returned as a
`Delivery`.

Each store has a `Valid()` invariant, and every handler preserves it. It covers:

- the unique keys (user e-mail and phone, vendor per user, service (name, vendorId),
  account per vendor);
- the foreign keys to vendors (of service names, services and accounts) and from
  ledger records to users;
- the shape of ledger records;
- the cap of two service names.

## Behaviour as the code has it

The model follows the code in each of these places:

- The code is 4 digits, drawn from [1000, 10000).
- The phone ledger is keyed by the phone string as given. No formatting is applied.
- `formatPhoneToInternational` is not idempotent.
- There is no reset-token or OAuth-linking logic.
- E-mail verification does not look at the `verified` flag. The same code is accepted
  again until it expires.
- The provider's `verified: "False"` is a truthy string, so the phone verify counts it
  as verified.
- On phone resend the SMS is requested before the ledger record is looked up.
- A request with a phone but no country and no e-mail is never answered.
- availableHours is validated by the create-service handler, but `createService` never
  writes it.
- Renaming a vendor's services, when it has two or more, breaks the (name, vendorId)
  key, and the request fails with 500.
- A vendor row is not rolled back when a later service-name step fails.
- A payout update reports success even when the vendor has no account.
- A failed SMS send, and a failed verify other than a provider 400, hand the handler the
  caught error object, not its text. An object is truthy, so the handlers' fallback
  messages ("Failed to send OTP", "Failed to resend OTP", "OTP verification failed")
  are never used there; the 400 carries the object's string form, such as
  "Error: Failed to send OTP".

## Model

| member | source | states |
|---|---|---|
| Js.Write | src/api/vendor/services/database/service.ts:22-33 | an undefined field keeps the column, null clears it, a value overwrites it |
| Js.Trim | src/api/authentication/handlers/otp/otp.ts:22 | the trimmed string is empty exactly when every character is JavaScript white space |
| Js.TrimStart | src/api/authentication/handlers/otp/otp.ts:22 | the result is a suffix of the input, the part dropped is white space, and the result does not start with white space |
| Js.TrimEnd | src/api/authentication/handlers/otp/otp.ts:22 | the result is a prefix of the input, the part dropped is white space, and the result does not end with white space |
| Js.Or | src/libs/termii/index.ts:51 | `s \|\| fallback`: s when non-empty, otherwise the fallback |
| Js.ErrorString | src/api/authentication/handlers/otp/otp.ts:31-34 | the string form of an error object: it starts with the error's name and ends with its message, joined by ": " when both are non-empty |
| Js.NewErrorStringPrefixed | src/libs/termii/index.ts:21-26 | an error made by `new Error(text)` converts to "Error: " + text (or "Error"), never to the bare text |
| Js.ToUpperChar | src/api/authentication/handlers/sign-up/sign-up-v1.ts:42-43 | no lower-case ASCII letter survives, and an upper-case ASCII result comes from a letter |
| Js.ToUpper | src/api/authentication/handlers/set-roles/set-roles-v1.ts:24-27 | same length, and no lower-case ASCII letter remains |
| Js.UpperUnchanged | src/api/authentication/handlers/set-roles/set-roles-v1.ts:30-33 | a string without letters to map is its own upper case |
| Js.ToUpperIdempotent | src/api/authentication/handlers/set-roles/set-roles-v1.ts:24-33 | upper-casing twice is the same as once |
| PhoneService.FormatPhoneToInternational | src/utils/phoneService.ts:1-12 | any country but "nga" gives ""; "nga" gives "234" followed by the number without its leading '0', or by the whole input; length \|p\|+2 or \|p\|+3 |
| PhoneService.FormatPhoneToLocal | src/utils/phoneService.ts:14-19 | any country but "nga" gives ""; "nga" gives "0" followed by the input |
| PhoneService.InternationalAfterLocal | src/utils/phoneService.ts:5-16 | local then international gives "234" + p |
| PhoneService.LocalAfterInternational | src/utils/phoneService.ts:5-16 | on a number starting with '0', dropping the calling code and formatting to local gives the number back |
| PhoneService.InternationalNotIdempotent | src/utils/phoneService.ts:9 | a number already starting with "234" gets a second prefix |
| PhoneService.InternationalExample | src/utils/phoneService.ts:6-7 | "08012345678" becomes "2348012345678" |
| OtpCode.RandomInt | src/utils/generate-otp.ts:5 | the draw lies in [min, max) |
| OtpCode.RandomIntReachesEveryValue | src/utils/generate-otp.ts:5 | every value of the range is drawn by some draw |
| OtpCode.GenerateOtp | src/utils/generate-otp.ts:4-5 | the code lies in [1000, 9999] |
| OtpCode.NatToString | src/api/authentication/handlers/otp/otp.ts:103 | decimal digits, with no leading zero for a positive number |
| OtpCode.DecimalValueOfNatToString | src/api/authentication/handlers/otp/otp.ts:103 | the decimal string denotes the number |
| OtpCode.NatToStringLength | src/api/authentication/handlers/otp/otp.ts:103 | a number in [10^(k-1), 10^k) has k digits |
| OtpCode.OtpString | src/api/authentication/handlers/otp/otp.ts:103 | the stored code is 4 decimal digits, not starting with '0', denoting the generated number |
| OtpCode.OtpStringInjective | src/api/authentication/handlers/otp/otp.ts:103 | different generated numbers give different code strings |
| OtpCode.GetOtpExpiry | src/utils/generate-otp.ts:9-10 | 0 minutes gives now, 5 minutes gives now + 300000 ms, and a non-negative duration never lies before now |
| OtpCode.ExpiryMonotone | src/utils/generate-otp.ts:9-10 | a longer duration never gives an earlier expiry |
| OtpCode.ExpiryPerMinute | src/utils/generate-otp.ts:9-10 | each extra minute adds exactly 60000 ms |
| Validations.IsValidEmail | src/utils/validations.ts:2-3 | `isValidEmail`: an '@' with a non-empty local part of characters other than white space and '@' before it, and a valid domain after it |
| Validations.ValidEmailIffSplit | src/utils/validations.ts:2-3 | an address is valid exactly when it splits as local "@" host "." tld, with three non-empty parts free of white space and '@' |
| Validations.SplitIsValidEmail | src/utils/validations.ts:2-3 | such a split is a valid address |
| Validations.ValidEmailHasSplit | src/utils/validations.ts:2-3 | a valid address has such a split |
| Validations.ValidEmailShape | src/utils/validations.ts:2-3 | a valid address has no white space, exactly one '@' with text before it, and a '.' after it with text on both sides |
| Validations.EmailExamples | src/utils/validations.ts:2-3 | "a@x.com" and "a@b.c.d" are accepted; "a@x", "a@.com", "a@x." and "a b@x.com" are rejected |
| Validations.IsValidPhone | src/utils/validations.ts:5-6 | `isValidPhone`: the digits after an optional leading '+' are 7 to 15 ASCII digits |
| Validations.ValidPhoneIff | src/utils/validations.ts:5-6 | a phone is valid exactly when it is an optional '+' followed by 7 to 15 ASCII digits |
| Validations.ValidPhoneLength | src/utils/validations.ts:5-6 | valid phones are 7 to 16 characters long |
| Validations.PhoneExamples | src/utils/validations.ts:5-6 | "+" alone, 6 digits, 16 digits and a doubled '+' are rejected; 10 digits after a '+' and 11 digits without one are accepted |
| Termii.SendOtp | src/libs/termii/index.ts:15-40 | success exactly when phone and country are given and the provider says "Message Sent"; a success copies smsStatus, to and pinId; every failure carries an error object: `new Error` with the required-arguments text, `new Error("Failed to send OTP")` for another sms status, or the provider call's own error |
| Termii.SendDestination | src/libs/termii/index.ts:20-23 | the provider gets the phone unchanged, and only when both arguments are given |
| Termii.RejectedReply | src/libs/termii/termii.ts:71-81 | an HTTP error of the verify call becomes a reply with the pin id, verified "False", a non-empty message and a non-zero code |
| Termii.VerifyOtp | src/libs/termii/index.ts:42-76 | missing token or otp gives an error; success exactly when the reply's verified field is a non-empty string, with status "verified" and the provider's pin id and number; missing arguments carry `new Error` with the required-arguments text; a provider 400 carries its non-empty message text, the default when it has none; any other failure carries the error object |
| Termii.FalseCountsAsVerified | src/libs/termii/index.ts:49-57 | a reply with verified "False" yields status "verified" |
| Termii.RejectionCountsAsVerified | src/libs/termii/termii.ts:71-81 | every HTTP error of the verify endpoint ends up reported as verified |
| Termii.NotVerifiedNeedsEmptyFlag | src/libs/termii/index.ts:49-54 | with both arguments given, a non-verified result needs an empty verified field or a failed call |
| Identity.UserByEmail | src/api/authentication/services/database/user.ts:18-25 | the user found has that e-mail |
| Identity.UserByPhone | src/api/authentication/services/database/user.ts:18-25 | the user found has that phone |
| Identity.LookupsUnique | src/api/authentication/services/database/user.ts:18-25 | under the unique constraints, a user's own e-mail and phone find that user |
| Identity.Lookup | src/api/authentication/handlers/otp/otp.ts:177-179 | a record is found exactly when one is stored under that channel, and it is that record |
| Identity.ConfirmEmail | src/api/authentication/handlers/otp/otp.ts:213-220 | the user gets the e-mail, the password snapshot and emailVerified; phoneVerified and everything else stay |
| Identity.ConfirmPhone | src/api/authentication/handlers/otp/otp.ts:274-281 | the user gets the body's e-mail as Prisma writes it, the password snapshot and phoneVerified; emailVerified and everything else stay |
| Identity.PhoneUpsert | src/api/authentication/handlers/otp/otp.ts:52-71 | the phone record is pending, not verified, owned by the user, with the user's password and the ip; no code or expiry is written |
| Identity.EmailUpsert | src/api/authentication/handlers/otp/otp.ts:107-129 | the e-mail record holds the new code and expiry, is pending and not verified, and is owned by the user, whether it existed or not |
| Identity.MarkVerified | src/api/authentication/handlers/otp/otp.ts:196-202 | verified with status "verified"; code, expiry, owner and password stay |
| Identity.Reissue | src/api/authentication/handlers/otp/otp.ts:339-347 | a new code and expiry, back to pending; owner, password and channel stay |
| Identity.Reopen | src/api/authentication/handlers/otp/otp.ts:412-418 | back to pending and not verified; code and expiry stay |
| Identity.OtpAccepted | src/api/authentication/handlers/otp/otp.ts:183-188 | the e-mail check: the stored code equals the given one, an expiry is stored, and the clock has not passed it |
| Identity.SentCodeWindow | src/api/authentication/handlers/otp/otp.ts:103-129 | after an e-mail send at t, a code is accepted exactly when it is the one drawn and the clock is at most t + 300000 |
| Identity.ReissueReplacesCode | src/api/authentication/handlers/otp/otp.ts:336-347 | after a resend, an older code is accepted only if the new draw produced the same number |
| Identity.VerifiedCodeStillAccepted | src/api/authentication/handlers/otp/otp.ts:183-202 | marking a record verified does not change which codes it accepts |
| Identity.PutRequestConsistent | src/api/authentication/handlers/otp/otp.ts:52-71 | storing a well-formed record owned by an existing user keeps the tables consistent |
| Identity.PutUserConsistent | src/api/authentication/handlers/otp/otp.ts:213-220 | replacing a user row that keeps id, phone and a valid role, with an e-mail nobody else holds, keeps the tables consistent |
| Identity.AddUserConsistent | src/api/authentication/services/database/user.ts:5-16 | adding a fresh user with a valid role and an unused e-mail keeps the tables consistent |
| OtpHandlers.PhoneAfterGuard | src/api/authentication/handlers/otp/otp.ts:161-167 | past the contact guard with a falsy e-mail, the phone is non-blank |
| OtpHandlers.Reported | src/api/authentication/handlers/otp/otp.ts:246-247 | `message \|\| fallback` as the handler passes it on: the fallback replaces only an empty text, and an error object becomes its string form |
| OtpHandlers.VerifyFallbackUnused | src/api/authentication/handlers/otp/otp.ts:244-247 | a failed verify is reported by its own message, whatever the fallback |
| OtpHandlers.SmsStatusFailureText | src/api/authentication/handlers/otp/otp.ts:381-385 | an SMS status other than "Message Sent" is answered with "Error: Failed to send OTP", whatever fallback the handler names |
| OtpHandlers.SendOtp | src/api/authentication/handlers/otp/otp.ts:14-148 | blank contacts give 400 with no change; phone and country go to the provider first, and then a provider error gives 400 with the caught error's string form, an unknown user gives 400, or else the phone record is upserted; an e-mail is then validated, its user found, and the e-mail record upserted with the new code expiring in 5 minutes; a failed e-mail gives 500 and the write stays; an e-mail-less phone without a country gets no answer |
| OtpHandlers.VerifyOtp | src/api/authentication/handlers/otp/otp.ts:153-294 | blank contacts give 400; a missing record, wrong code or expiry give the same 404 with no change; e-mail success marks the record verified and confirms the user's e-mail; phone needs otp and token and a "verified" provider status, else 400 with the failure's own message, a missing record gives 404, and success confirms the phone; a unique e-mail clash gives 500 with the record update kept |
| OtpHandlers.ResendOtp | src/api/authentication/handlers/otp/otp.ts:299-431 | a missing record gives 404 and a verified one 400, with no ledger change; e-mail resend reissues the code for 5 minutes and mails the owner, and a failed e-mail gives 500 with the write kept; phone resend requests the SMS before the lookup, answers a failed send with 400 and the caught error's string form, and only reopens the record |
| SignUpHandler.WithoutPassword | src/api/authentication/handlers/sign-up/sign-up-v1.ts:48-49 | the response carries each user column except the password, column by column |
| SignUpHandler.WithoutPasswordIgnoresPassword | src/api/authentication/handlers/sign-up/sign-up-v1.ts:48-49 | the response does not depend on the password |
| SignUpHandler.ResolveRole | src/api/authentication/handlers/sign-up/sign-up-v1.ts:42-44 | the upper-cased role when it names a UserRole, CLIENT otherwise; always a UserRole |
| SignUpHandler.ResolveRoleIgnoresCase | src/api/authentication/handlers/sign-up/sign-up-v1.ts:42-44 | a role and its upper case resolve the same |
| SignUpHandler.ResolveRoleOfRole | src/api/authentication/handlers/sign-up/sign-up-v1.ts:42-44 | each UserRole resolves to itself |
| SignUpHandler.NewUser | src/api/authentication/handlers/sign-up/sign-up-v1.ts:36-45 | the row has the e-mail, the hash, a resolved role, no phone and no verified flags |
| SignUpHandler.SignUp | src/api/authentication/handlers/sign-up/sign-up-v1.ts:10-54 | missing fields or an invalid e-mail give 400; a taken e-mail gives 500; otherwise one user with the cost-10 hash is added and answered without its password; the ledger is untouched |
| ChangePasswordHandler.WithPassword | src/api/authentication/handlers/change-password/change-password-v1.ts:65-71 | only the password and updatedAt change |
| ChangePasswordHandler.ChangePassword | src/api/authentication/handlers/change-password/change-password-v1.ts:16-84 | no user id gives 500; missing fields or a mismatch give 400 before any lookup; an unknown user or a wrong current password gives 401; success stores the cost-12 hash; only success writes |
| SetRoleHandler.RoleUpdatedMessage | src/api/authentication/handlers/set-roles/set-roles-v1.ts:38 | the message echoes the role as the request spelled it |
| SetRoleHandler.SetRole | src/api/authentication/handlers/set-roles/set-roles-v1.ts:8-48 | no user id gives 401; a missing role or one whose upper case is not a UserRole gives 400; success stores only the upper-cased role and answers id, e-mail and role |
| VendorTables.CountFor | src/api/vendor/services/database/vendor.ts:34-39 | the count of a vendor's rows in a category never exceeds the table size |
| VendorTables.CountForAppend | src/api/vendor/services/database/vendor.ts:34-39 | counting over two tables adds up |
| VendorTables.CountForAbsent | src/api/vendor/services/database/vendor.ts:34-39 | a vendor with no rows counts zero |
| VendorTables.VendorOfUser | src/api/vendor/services/database/vendor.ts:125-127 | the vendor found belongs to the user |
| VendorTables.VendorOfUserUnique | src/api/vendor/services/database/vendor.ts:125-127 | under the unique user key, a vendor's user finds that vendor |
| VendorDb.Rows | src/api/vendor/services/database/vendor.ts:43-49 | one row per name, in order, with the vendor's id and category |
| VendorDb.CountRows | src/api/vendor/services/database/vendor.ts:43-49 | new rows count for their vendor and category only |
| VendorDb.ValidPrefixLength | src/api/vendor/services/database/vendor.ts:27-31 | the names before it are service names, and the name at it is not |
| VendorDb.WithoutCategory | src/api/vendor/services/database/vendor.ts:90-92 | the vendor's rows in the category go and every other row stays; counts drop to zero there and nowhere else |
| VendorDb.NewVendor | src/api/vendor/services/database/vendor.ts:18-24 | the row has the id, user, profile and category, with status PENDING |
| VendorDb.UpdateProfiles | src/api/vendor/services/database/vendor.ts:75-81 | the user's vendor gets the given columns and updatedAt; columns not given and other vendors stay |
| VendorDb.UpdatedCount | src/api/vendor/services/database/vendor.ts:75-81 | at most one row is updated, and one exactly when the user has a vendor |
| VendorDb.InsertVendorConsistent | src/api/vendor/services/database/vendor.ts:18-50 | a new vendor with at most two rows of its own keeps the tables consistent |
| VendorDb.ReplaceRowsConsistent | src/api/vendor/services/database/vendor.ts:90-109 | replacing a vendor's rows in its category by at most two keeps the tables consistent |
| VendorDb.UpdateProfilesConsistent | src/api/vendor/services/database/vendor.ts:75-81 | a profile update keeps the tables consistent |
| VendorDb.AddServiceRows | src/api/vendor/services/database/vendor.ts:26-50 | the valid names before the first invalid one are inserted, at most two; success exactly when every name is valid and there are at most two |
| VendorDb.CreateVendorWithServices | src/api/vendor/services/database/vendor.ts:11-58 | a user with a vendor gets an error and nothing changes; otherwise the vendor row stays even when a name step fails, and the rows inserted are as AddServiceRows says |
| VendorDb.InsertServiceRows | src/api/vendor/services/database/vendor.ts:94-109 | at most the first two valid names are inserted; the third name is still checked and later ones are not; failure exactly when an invalid name comes among the first three |
| VendorDb.UpdateVendorByUserId | src/api/vendor/services/database/vendor.ts:66-118 | the profile update always happens first; no names leave the rows alone; names with no vendor give an error; otherwise the category rows are replaced as InsertServiceRows says; the count is that of the profile update |
| ServiceDb.FindService | src/api/vendor/services/database/service.ts:15-21 | the first row with the (name, vendorId) pair, or None exactly when there is none |
| ServiceDb.Updated | src/api/vendor/services/database/service.ts:22-33 | description, images, location and pricing model are overwritten, and category and prices written as Prisma does; id, name, vendor, availableHours and createdAt stay |
| ServiceDb.Created | src/api/vendor/services/database/service.ts:34-46 | a new row for the pair with no availableHours; it agrees with the update branch on every written column |
| ServiceDb.Upsert | src/api/vendor/services/database/service.ts:15-47 | an existing pair is updated in place; otherwise a created row is appended |
| ServiceDb.Upserted | src/api/vendor/services/database/service.ts:15-49 | the row returned has the pair and is in the new table |
| ServiceDb.UpsertWellFormed | src/api/vendor/services/database/service.ts:5-21 | the catalogue stays well formed, and the pair has exactly one row, the returned one |
| ServiceDb.UpsertIgnoresAvailableHours | src/api/vendor/services/database/service.ts:22-46 | the input's availableHours does not affect the table |
| ServiceDb.FindAfterUpsert | src/api/vendor/services/database/service.ts:15-47 | the pair is found after the upsert, where it was or at the end |
| ServiceDb.UpsertIdempotent | src/api/vendor/services/database/service.ts:15-47 | upserting the same input twice at the same moment equals upserting it once |
| ServiceDb.ServicesByVendor | src/api/vendor/services/database/service.ts:61-73 | every listed row is one of the vendor's rows in the table, every vendor row is listed, and the listing is no longer than the table |
| ServiceDb.ServicesByVendorExact | src/api/vendor/services/database/service.ts:61-66 | the listing holds each of the vendor's rows as often as the table does, and no other row |
| ServiceDb.ServicesByVendorNewestFirst | src/api/vendor/services/database/service.ts:63-66 | with rows stored in creation order, the listing is newest first |
| ServiceDb.ServiceCount | src/api/vendor/services/database/service.ts:95-104 | the length of the vendor's listing, zero exactly when the vendor has no rows |
| ServiceDb.ServiceCountIsMatchingRows | src/api/vendor/services/database/service.ts:95-104 | the count is the number of rows whose vendorId matches, as `updateMany` counts them |
| ServiceDb.Patched | src/api/vendor/services/database/service.ts:95-101 | the given field and updatedAt change, nothing else |
| ServiceDb.PatchAll | src/api/vendor/services/database/service.ts:95-101 | every row of the vendor is patched and every other row stays |
| ServiceDb.PatchAllWellFormed | src/api/vendor/services/database/service.ts:95-101 | a location change, or a name change for a vendor with at most one row, keeps the catalogue well formed |
| ServiceDb.SharedNameBreaksKey | src/api/vendor/services/database/service.ts:95-101 | renaming two or more rows of a vendor breaks the (name, vendorId) key |
| ServiceDb.CreateService | src/api/vendor/services/database/service.ts:11-54 | an unknown vendor gives an error and no change; otherwise the table is the upsert and the upserted row is returned |
| ServiceDb.UpdateServiceByVendorId | src/api/vendor/services/database/service.ts:90-107 | a rename of two or more rows is refused with no change; otherwise every row of the vendor is patched and the count returned |
| VendorAccountDb.NewAccount | src/api/vendor/services/database/vendorAccount.ts:14-20 | the account is linked to the vendor, with the given fields, and omitted document links stored as null |
| VendorAccountDb.WithBanking | src/api/vendor/services/database/vendorAccount.ts:40-46 | the four banking fields and updatedAt change; the link, documents and verification status stay |
| VendorAccountDb.WithBankingLastWins | src/api/vendor/services/database/vendorAccount.ts:40-46 | two updates keep only the second |
| VendorAccountDb.GetVendorAccountByVendorId | src/api/vendor/services/database/vendorAccount.ts:60-70 | found exactly when the vendor has an account, which belongs to that existing vendor |
| VendorAccountDb.CreateVendorAccount | src/api/vendor/services/database/vendorAccount.ts:10-27 | a missing vendor or an existing account gives an error and no change; otherwise exactly one account is added |
| VendorAccountDb.UpdateVendorAccount | src/api/vendor/services/database/vendorAccount.ts:35-53 | count 1 and the banking update when the vendor has an account, count 0 and no change otherwise |
| CreateServiceHandler.PricingError | src/api/vendor/handlers/create-service/create-service-v1.ts:55-75 | no error exactly when the model's own price rule holds; StartingFrom asks for fixedPrice, CustomQuote for no prices |
| CreateServiceHandler.ValidationError | src/api/vendor/handlers/create-service/create-service-v1.ts:34-75 | the first failing check in order: required fields, pricing model, available hours, prices; none exactly when the body is acceptable |
| CreateServiceHandler.StartingFromNeedsFixedPrice | src/api/vendor/handlers/create-service/create-service-v1.ts:65-69 | StartingFrom passes with fixedPrice and fails with only startingPrice |
| CreateServiceHandler.InvertedRangeAccepted | src/api/vendor/handlers/create-service/create-service-v1.ts:60-64 | a range with min above max is accepted |
| CreateServiceHandler.EmptyImagesPresent | src/api/vendor/handlers/create-service/create-service-v1.ts:34-44 | an empty image list passes the required-fields check |
| CreateServiceHandler.InputOf | src/api/vendor/handlers/create-service/create-service-v1.ts:84-96 | the body's fields are passed on, with no service category |
| CreateServiceHandler.CreateService | src/api/vendor/handlers/create-service/create-service-v1.ts:9-102 | no user id gives 500 before validation; an invalid body gives the first error as 400; a missing vendor gives 400 after validation; otherwise 201 and the upsert for the user's vendor; only that case writes |
| UpdateVendorHandler.Stored | src/api/vendor/handlers/update-vendors/update-vendor-v1.ts:30-48 | a present field's value as it goes into `updateData`: None for null, otherwise the string |
| UpdateVendorHandler.NullIffClearedColumn | src/api/vendor/handlers/update-vendors/update-vendor-v1.ts:30-48 | the update would clear a column exactly when some body field is null |
| UpdateVendorHandler.Provided | src/api/vendor/handlers/update-vendors/update-vendor-v1.ts:29-48 | exactly the fields that are not undefined, with null as provided |
| UpdateVendorHandler.ProvidedEmpty | src/api/vendor/handlers/update-vendors/update-vendor-v1.ts:50-53 | the update is empty exactly when every field is undefined |
| UpdateVendorHandler.BuildUpdateData | src/api/vendor/handlers/update-vendors/update-vendor-v1.ts:29-48 | an error exactly when a present enumerated field is not a value of its enumeration, yearsInBusiness first; otherwise the provided fields |
| UpdateVendorHandler.UpdateVendor | src/api/vendor/handlers/update-vendors/update-vendor-v1.ts:8-66 | no user id gives 500; a bad enumerated field or no fields give 400 with no write; a null field gives 500 with no write; otherwise the profile update; no vendor gives 400; service rows are untouched |
| CreateVendorHandler.AllPresentEveryField | src/api/vendor/handlers/create-vendor/create-vendor-v1.ts:20-28 | presence is checked for every one of the seven fields |
| CreateVendorHandler.ValidateVendor | src/api/vendor/handlers/create-vendor/create-vendor-v1.ts:19-51 | missing fields, then yearsInBusiness, then businessCategory; success forwards exactly the seven fields unchanged |
| CreateVendorHandler.AcceptedBodyIsValidUpdate | src/api/vendor/handlers/create-vendor/create-vendor-v1.ts:19-41 | a body the create handler accepts is also a complete, valid profile update with no null field |
| UpdateLocationHandler.UpdateServiceLocation | src/api/vendor/handlers/update-location/update-location-v1.ts:16-48 | no user id gives 500; a missing location gives 400 before any lookup; no vendor or no services gives 400 with no write; otherwise every service of the vendor gets the location |
| UpdateLocationHandler.LocationReachesEveryService | src/api/vendor/handlers/update-location/update-location-v1.ts:36-43 | after the update the vendor's listing has the new location throughout, and is non-empty exactly when it was before |
| UpdateServiceNameHandler.UpdateServiceName | src/api/vendor/handlers/update-service-name/update-service-name-v1.ts:15-51 | no user id gives 500; a missing name gives 400 before any lookup; no vendor or no services gives 400; one service is renamed; two or more give 500 with no write |
| CreatePayoutHandler.PayoutError | src/api/vendor/handlers/create-payout-information/create-payout-information-v1.ts:34-48 | none exactly when the four banking fields are present and accountType is an AccountType; missing fields are reported first |
| CreatePayoutHandler.DocumentsOptional | src/api/vendor/handlers/create-payout-information/create-payout-information-v1.ts:34-42 | the document links have no effect on validation |
| CreatePayoutHandler.BankingOf | src/api/vendor/handlers/update-payout-information/update-payout-information-v1.ts:45-50 | the four banking values are the body's four required fields |
| CreatePayoutHandler.BankingOfIgnoresDocuments | src/api/vendor/handlers/update-payout-information/update-payout-information-v1.ts:45-50 | the document links do not affect the banking values |
| CreatePayoutHandler.AccountInputOf | src/api/vendor/handlers/create-payout-information/create-payout-information-v1.ts:58-68 | the body's fields with verificationStatus PENDING |
| CreatePayoutHandler.CreatePayoutAccount | src/api/vendor/handlers/create-payout-information/create-payout-information-v1.ts:9-74 | no user id gives 500; the first validation error gives 400; a missing vendor gives 400 after validation; a second account gives 500; otherwise 201 and one PENDING account for the vendor |
| UpdatePayoutHandler.UpdatePayoutInformation | src/api/vendor/handlers/update-payout-information/update-payout-information-v1.ts:9-60 | no user id gives 500; validation errors give 400 before any lookup; a missing vendor gives 400; otherwise 200 with count 1 and the banking update, or count 0 and no change |
| VendorStatusAdmin.StatusMessage | src/api/admin/handlers/update-vendor-status/update-vendor-status.v1.ts:26-27 | the message ends with the status |
| VendorStatusAdmin.WithStatus | src/api/admin/services/database/vendor.ts:32-35 | only the status of the named vendor changes |
| VendorStatusAdmin.StatusLastWins | src/api/admin/handlers/update-vendor-status/update-vendor-status.v1.ts:19-24 | a later status overwrites an earlier one, and setting the old status back restores the table |
| VendorStatusAdmin.UpdateVendorStatus | src/api/admin/services/database/vendor.ts:27-41 | an unknown id gives an error and no change; otherwise only that vendor's status changes |
| VendorStatusAdmin.UpdateVendorStatusHandler | src/api/admin/handlers/update-vendor-status/update-vendor-status.v1.ts:10-34 | a missing field gives 400; only the exact strings APPROVED and REJECTED pass; an unknown vendor gives 500; otherwise 200 with the status set, whatever it was before |

## Left out

- HTTP wiring is not modelled: routing, middleware, the JWT check and the central error handler's mapping of error classes to status codes. The authenticated user id is an input, and each error class is given the status its name denotes.
- The e-mail service (templates, the Resend client) is not modelled. Delivery is a success or failure input.
- The Termii HTTP client is not modelled, except for the reply it builds when the verify call fails (`Termii.RejectedReply`).
- Termii.VerifyOtp: the `code` of a caught error is not carried into the result. No handler reads it.
- Google and Facebook sign-in, forgot password and reset password are not modelled. There is no linking or token logic in them to model.
- Analytics, and the read-only handlers and queries (the get-* handlers, contracts, bookings, notifications, listing all vendors), are not modelled.
- The update-email and update-phone-number handlers call `updateUser`, which is not part of this model.
- SetRoleHandler.SetRole: `updateUser` is not part of this model. It is taken to update the role of an existing user and to fail for an unknown one.
- CreateVendorHandler.ValidateVendor: `createVendor` is not exported by the vendor database module, so only the validation and the forwarded data are modelled. The row it would insert and its failure path are not.
- Configuration, logging, concurrency between requests, and database failures other than the constraint violations named in the contracts are not modelled.
- Request-body fields are modelled as strings, string lists and integers. Non-string JSON values other than null in string fields are not modelled.
- Prices are integers, not decimals.
- `toUpperCase` maps ASCII letters and the two non-ASCII letters whose upper case is ASCII. Other Unicode case mappings are not modelled, because they cannot turn a string into a role name.
- The enumerations known only from the Prisma schema (service names, available hours, years in business, business categories, account types) are a parameter, because the schema is not part of this model. The role and pricing-model enumerations are fixed. For years in business the two written sources disagree: the API type declarations (Api.ts:106) list ZERO_TO_ONE, TWO_TO_FIVE, SIX_TO_TEN, ELEVEN_TO_TWENTY and ABOVE_TWENTY, while the route documentation (src/api/vendor/index.ts:34) lists LESS_THAN_ONE, ONE_TO_TWO, TWO_TO_FIVE, FIVE_TO_TEN and TEN_PLUS.
- UpdateVendorHandler.UpdateVendor: the seven profile columns are taken to be required, since the Prisma schema is not part of this model and the API type declarations (Api.ts:114-122) type them as plain strings. A null field is then refused by the database and answered with the handler's 500 "Internal server error", with no write. If the schema made a column nullable, the source would clear it instead.
- ServiceDb.CreateService: `Service.serviceCategory` is taken to be nullable with no default, so a created row for which no category is given stores null and the create succeeds. The Prisma schema is not part of this model. The API type declarations (Api.ts:169-175, 194-200) type the column as non-null, but `createService` takes Prisma's `ServiceCreateInput` (service.ts:11-13) and the handler calls it without the field (create-service-v1.ts:83-95), which type-checks only if the field is optional in that input, so nullable or defaulted. A schema default would be stored instead of null; a required column without one would make every first-time create fail.
- ServiceDb.Created: stores null for an omitted category, on the assumption stated for ServiceDb.CreateService.
- CreateServiceHandler.CreateService: answers 201 for a first-time create without a category, on the assumption stated for ServiceDb.CreateService; if the column were required with no default, that create would be answered with 500.
- The exceptions module and the central error handler are not part of this model. A `BadRequestError` is taken to carry a `code`, to hand its argument to `Error` (so an object argument becomes its string form), and to be answered with status 400 and that message.
- The foreign key from a vendor to its user is not modelled. Vendor and identity tables are separate stores.
- The unique rcNumber constraint on vendors is not modelled.
- VendorStatusAdmin.UpdateVendorStatus: the automatic `updatedAt` of the vendor row is not modelled on a status change.
- ServiceDb.UpdateServiceByVendorId: the patch is limited to the two fields the handlers pass (location and name).

