# Account ledger model

A Dafny model of the ledger at the heart of a small online-banking application
(a Next.js front end with Prisma-backed API routes). The bank is one immutable
value: accounts, customers, transaction entries and the registered e-mail
addresses. Each API route becomes a pure function from a bank and a request to
either a new bank or the error the route answers with. Database reads that the
route does not order are parameters constrained by predicates:
`SenderLookup` stands for the sender lookup, `LatestOf` for "most recently
created row" and `AccountView.Listing` for a customer's account listing.
Transaction ids and timestamps are parameters too.

It covers:

- the customer's transfer, with its approval threshold of 500.00 (50000 cents);
- the administrator's approve/reject of a pending transfer;
- credit, debit and inter-account moves;
- transaction edits;
- the two restriction mechanisms;
- account approval;
- self-registration with its account- and customer-number sequences;
- the account overview;
- the administrator's customer list and the restrictions page's regrouping of it;
- the de-duplicated transaction lists of the customer pages;
- the string formatters, masks and validators of the shared library;
- the zod form schemas;
- the route guard;
- the registration wizard.

Money is integer cents. JavaScript behaviour the routes depend on is written out:

- `String.prototype.replace` with a string pattern replaces only the first occurrence. It is written as a left-to-right scan and proved equal to `indexOf` followed by a splice;
- `parseInt` without a radix reads an optional sign, then either `0x`/`0X` and the leading hexadecimal digits or the leading decimal digits, and `None` stands for `NaN`;
- `padStart`;
- the `/\D/g` filter;
- the `(\d{k})(?=\d)` grouping regex.

A zod `safeParse` is modelled as the sequence of issues it reports, in field
order. A failing string check does not abort the object, so its `refine` still
runs and its issue comes last. A failing `z.enum` does abort it, and then the
`refine` is skipped.

Modules, one per file:

| module | file |
|---|---|
| `Results` | `results.dfy` |
| `Text` | `text.dfy` |
| `Numbers` | `numbers.dfy` |
| `Seqs` | `seqs.dfy` |
| `Bank` | `bank.dfy` |
| `CustomerTransfer` | `customer_transfer.dfy` |
| `TransferApproval` | `transfer_approval.dfy` |
| `AdminAdjust` | `admin_adjust.dfy` |
| `TransactionEdit` | `transaction_edit.dfy` |
| `Restrictions` | `restrictions.dfy` |
| `AccountApproval` | `account_approval.dfy` |
| `Registration` | `registration.dfy` |
| `AccountView` | `account_view.dfy` |
| `CustomerRows` | `customer_rows.dfy` |
| `History` | `history.dfy` |
| `Formats` | `formats.dfy` |
| `Validators` | `validators.dfy` |
| `RouteGuard` | `route_guard.dfy` |
| `RegisterWizard` | `register_wizard.dfy` |

## Model

| member | source | states |
|---|---|---|
| CustomerTransfer.Check | src/app/api/customer/transfer/route.ts:39-103 | A request passes the checks only with a sender, an existing recipient and a recipient different from the sender, and yields exactly those two accounts |
| CustomerTransfer.Queue | src/app/api/customer/transfer/route.ts:109-143 | The gated path adds exactly one PENDING_APPROVAL TRANSFER entry on the sender: amount −a, before = after = the sender's balance, receiver recorded. No account changes |
| CustomerTransfer.Settle | src/app/api/customer/transfer/route.ts:147-195 | The instant path moves a from sender to receiver and conserves their sum. It touches only those two accounts and adds only the two COMPLETED legs T and T-IN (−a and +a, each balanced, summing to 0) |
| CustomerTransfer.Initiate | src/app/api/customer/transfer/route.ts:9-195 | An invalid request, a missing sender or a restricted customer is refused with that restriction's kind and reason. It fails as insufficient exactly when balance < amount. It succeeds exactly when every check passes (amount = balance allowed); then it routes to Queue at ≥ 50000 cents and to Settle below, keeping balances non-negative |
| TransferApproval.Complete | src/app/api/admin/approve-transaction/route.ts:56-135 | Approval moves \|amount\| from sender to receiver. The pending entry becomes COMPLETED with the new balance after, its balance before is kept and the first "[PENDING APPROVAL]" becomes "[APPROVED]". One balanced COMPLETED T-IN leg of +a is added on the receiver |
| TransferApproval.Approve | src/app/api/admin/approve-transaction/route.ts:54-135 | A missing receiver fails, and it fails as insufficient exactly when the sender's balance < \|amount\|; both failures leave the bank unchanged. Otherwise it is Complete |
| TransferApproval.Reject | src/app/api/admin/approve-transaction/route.ts:142-170 | REJECT marks only that entry REJECTED with the reason, or the dated default when the reason is empty or missing. No account changes |
| TransferApproval.Process | src/app/api/admin/approve-transaction/route.ts:28-182 | Missing fields are invalid. An entry that is absent or not PENDING_APPROVAL is "already processed". An unknown action on a pending entry fails. On success the entry ends COMPLETED or REJECTED, and a rejection keeps every balance. A pending APPROVE is decided exactly as Approve decides it; a pending REJECT always succeeds with Reject |
| TransferApproval.SecondDecisionFails | src/app/api/admin/approve-transaction/route.ts:47-52 | A second decision on an entry that has been decided fails as already processed |
| AdminAdjust.CreditAccount | src/app/api/admin/credit/route.ts:6-78 | An invalid request, an unknown account or a non-ACTIVE account is refused (the last with its status). Success adds exactly one balanced COMPLETED CREDIT entry of +a and raises only that account by a |
| AdminAdjust.DebitAccount | src/app/api/admin/debit/route.ts:6-86 | As credit, but it fails as insufficient exactly when balance < amount (amount = balance allowed). The balance drops by a and stays ≥ 0. The DEBIT entry stores +a with after = before − a |
| AdminAdjust.OwnedAmongPair | src/app/api/admin/inter-account-transfer/route.ts:47-61 | The ownership query returns two accounts iff the numbers differ and both belong to the customer |
| AdminAdjust.Post | src/app/api/admin/inter-account-transfer/route.ts:86-124 | Writing one balanced entry sets only its account's balance to the entry's balance after and adds only that entry |
| AdminAdjust.MoveLegs | src/app/api/admin/inter-account-transfer/route.ts:82-128 | Source −a and destination +a, with their sum conserved. Only those two accounts change. A balanced COMPLETED DEBIT of +a and a balanced COMPLETED CREDIT of +a are the only entries added |
| AdminAdjust.MoveBetweenAccounts | src/app/api/admin/inter-account-transfer/route.ts:6-128 | A non-positive amount is invalid and from = to always fails. It fails as insufficient exactly when the source balance < amount. It succeeds exactly when both accounts are the customer's and the balance covers the amount, whatever the account statuses, and then it is MoveLegs |
| TransactionEdit.Shift | src/app/api/admin/transactions/edit/route.ts:70-102 | A DEBIT amount change old→new shifts by −(new−old) and a CREDIT change by +(new−old). The same amount, TRANSFER, OPENING or no amount shift by 0 |
| TransactionEdit.EditEntry | src/app/api/admin/transactions/edit/route.ts:59-108 | The edited row keeps its balance before and its after moves by Shift. Description and status are replaced as given. Only the amount, the balance after, the description and the status change; the id, sender and receiver are kept. A balanced DEBIT or CREDIT row stays balanced |
| TransactionEdit.Edit | src/app/api/admin/transactions/edit/route.ts:6-108 | An unknown id is not found and changes nothing. Success rewrites only that entry, and only its account's balance, by the same Shift as the row |
| TransactionEdit.EditWithoutRepriceKeepsBalances | src/app/api/admin/transactions/edit/route.ts:61-70 | A description or status edit, or an unchanged amount, moves no balance |
| TransactionEdit.EditCanOverdraw | src/app/api/admin/transactions/edit/route.ts:75-87 | Raising a DEBIT's amount can leave the account negative |
| Restrictions.Toggled | src/app/api/admin/restrict-customer/route.ts:56-68 | RESTRICT sets the flag, the kind (FROZEN by default), the reason, the admin and the time. UNRESTRICT clears all of these. The expiry is untouched |
| Restrictions.ToggleCustomer | src/app/api/admin/restrict-customer/route.ts:6-74 | An invalid request, a missing admin or an admin without permission is refused. On success the customer gets Toggled and every one of its accounts becomes SUSPENDED or ACTIVE, whatever its prior status. Other customers, other accounts and all balances are unchanged |
| Restrictions.ToggleSetsStatuses | src/app/api/admin/restrict-customer/route.ts:56-74 | After a toggle every account of the customer has the status the action names |
| Restrictions.ToggleRestrictTwiceStatuses | src/app/api/admin/restrict-customer/route.ts:56-74 | With no already-restricted guard, a second RESTRICT succeeds and leaves accounts and entries as the first left them |
| Restrictions.ToggleRestrictTwiceFlags | src/app/api/admin/restrict-customer/route.ts:56-74 | A second RESTRICT leaves the customers as the first did, except the time of restriction |
| Restrictions.RestrictSuspendedKeepsAccounts | src/app/api/admin/restrict-customer/route.ts:71-74 | RESTRICT on a customer whose accounts are all SUSPENDED leaves every account as it was |
| Restrictions.RestrictAccount | src/app/api/admin/restrict-account/route.ts:6-83 | An unknown kind, a reason under 10 characters or an unknown customer is refused. An already restricted customer is refused with its restriction reported and left as is. A non-empty expiry that new Date cannot read fails the update. Otherwise only that customer's restriction is set (with the expiry or none), and accounts and entries are untouched |
| Restrictions.UnrestrictAccount | src/app/api/admin/unrestrict-account/route.ts:6-65 | A short reason, an unknown customer or a customer who is not restricted is refused. Otherwise all restriction columns are cleared, expiry included, and nothing else changes |
| Restrictions.RestrictThenUnrestrict | src/app/api/admin/unrestrict-account/route.ts:52-65 | Restrict-account then unrestrict-account leaves the customer unrestricted and everything else as before. From a clear customer it returns the original bank |
| Restrictions.ToggleKeepsExpiry | src/app/api/admin/restrict-customer/route.ts:59-68 | The toggle's UNRESTRICT keeps an expiry set by restrict-account, so the two unrestrict paths differ |
| AccountApproval.Decide | src/app/api/admin/approve-account/route.ts:6-117 | An unknown action is invalid, an unknown account is not found and a non-PENDING account is refused. Success changes only that account's status: ACTIVE with approver and time for APPROVE, CLOSED for REJECT. No balance changes |
| AccountApproval.DecideOnce | src/app/api/admin/approve-account/route.ts:54-59 | Once decided, any second decision fails as not pending |
| Registration.AccountBase | src/app/api/customer/register/route.ts:161-167 | The base is parseInt(last) + 1, or 702346799 when there is no account or it does not parse |
| Registration.NewAccountNumbers | src/app/api/customer/register/route.ts:169-170 | Checking and savings numbers parse back as base and base + 1 |
| Registration.AccountBaseContinues | src/app/api/customer/register/route.ts:161-170 | The next registration's base follows the savings number |
| Registration.CustomerSequence | src/app/api/customer/register/route.ts:61-72 | With no customer the sequence is the first one. After "CUST" and a tail, it is the tail's parseInt plus one, or NaN when the tail does not parse |
| Registration.SequenceWithoutPrefix | src/app/api/customer/register/route.ts:67-72 | A last number with no "CUST" anywhere is parsed whole: its parseInt plus one, or NaN |
| Registration.SequenceOfPrefixed | src/app/api/customer/register/route.ts:70-71 | After a number "CUST" + t whose tail parses, the sequence is that parse plus one |
| Registration.NumberAfter | src/app/api/customer/register/route.ts:67-75 | After "CUST" and a tail that parses as n, the next number is the generator's number for n + 1 |
| Registration.RestartFromZero | src/app/api/customer/register/route.ts:67-75 | After "CUST" and a tail that parses as 0, the next number is the generator's number for 1 |
| Registration.NewCustomerNumber | src/app/api/customer/register/route.ts:61-76 | Every generated customer number starts with "CUST" and has at least 14 characters |
| Registration.NewCustomerNumberContinues | src/app/api/customer/register/route.ts:67-75 | After the number for sequence n comes the number for n + 1 |
| Registration.NumberOfSequence | src/app/api/customer/register/route.ts:67-75 | A continued sequence n yields the generator's number for n |
| Registration.NaNAfterUnparsable | src/app/api/customer/register/route.ts:70-75 | A last number whose tail after "CUST" does not parse yields "CUST0000000NaN" |
| Registration.RestartAfterNaN | src/app/api/customer/register/route.ts:70-75 | After "CUST0000000NaN" (zeros, then a non-digit) the sequence restarts at 1. A single zero followed by 'x' or 'X' is excluded, because parseInt reads it as a hexadecimal prefix |
| Registration.Duplicate | src/app/api/customer/register/route.ts:103-149 | No clash is found iff the e-mail, mobile, SSN and licence are all unused. E-mail is checked first, then mobile, then SSN, then licence; each clash is reported exactly when the earlier fields are unused and that field is taken |
| Registration.Enrol | src/app/api/customer/register/route.ts:176-259 | Registration adds exactly one unrestricted customer, its e-mail, a PENDING CURRENT checking account and a PENDING SAVING account, both at 0. Every existing row is kept |
| Registration.EnrolKeepsIdentitiesUnique | src/app/api/customer/register/route.ts:103-149 | After the uniqueness checks pass, no two customers share a mobile, SSN or licence |
| Registration.Register | src/app/api/customer/register/route.ts:6-259 | The schema is checked first, including the optional accountType, which must be SAVING or CURRENT when given, then the uniqueness checks in order. A birth date that new Date cannot read then fails the write. It succeeds exactly when these pass and the generated numbers are free, and then it is Enrol with the generated numbers |
| Numbers.ParseIntOfIntToString | src/app/api/customer/register/route.ts:163-170 | parseInt reads back what toString writes |
| Numbers.ParseIntOfPadded | src/app/api/customer/register/route.ts:70-75 | parseInt reads back a zero-padded sequence |
| Numbers.ParseIntOfHex | src/app/api/customer/register/route.ts:70 | parseInt reads "0x" followed by hexadecimal digits as their hexadecimal value, and "0x" alone as NaN |
| Numbers.ParseInt | src/app/api/customer/register/route.ts:70 | parseInt is NaN exactly when no digit follows the optional sign (or, after a `0x`/`0X` prefix, no hexadecimal digit follows it). The result is not positive after a '-' and not negative otherwise |
| Text.ReplaceLeading | src/app/api/customer/register/route.ts:70 | replace on a string that starts with the pattern removes just that prefix |
| Text.ReplaceFirst | src/app/api/admin/approve-transaction/route.ts:97 | replace with a string pattern leaves a string without the pattern unchanged |
| Text.ReplaceFirstIsSplice | src/app/api/customer/register/route.ts:70 | replace is indexOf followed by a splice: the first occurrence, and only it, becomes the replacement; the length changes by the difference of the two, and the text before and after is kept |
| AccountView.FirstOfKind | src/app/api/customer/account/route.ts:43-44 | find returns an account of the kind with none of that kind before it, or nothing exactly when there is none |
| AccountView.View | src/app/api/customer/account/route.ts:26-76 | A missing customer and a customer without accounts both get not found. Otherwise the total is the sum over all accounts, whatever their status, and the restriction is passed through. Checking is the first CURRENT account of the listing and savings the first SAVING account, each none iff there is none |
| AccountView.SumUpdate | src/app/api/customer/account/route.ts:47 | Changing one balance changes the total by the difference |
| AccountView.MoveKeepsTotal | src/app/api/customer/account/route.ts:47 | An inter-account move keeps the listing a listing and keeps the customer's total balance |
| CustomerRows.RowsOf | src/app/api/admin/all-customers/route.ts:47-82 | No accounts gives one "N/A" row with balance 0. k accounts give k rows in account order. Every row carries the customer's id and restriction flags |
| CustomerRows.Flatten | src/app/api/admin/all-customers/route.ts:44-84 | The row count is the sum of max(1, k) and every row belongs to a listed customer |
| CustomerRows.Regroup | src/app/admin/restrictions/page.tsx:78-106 | Regrouping gives one group per distinct id, in order of first appearance |
| CustomerRows.RegroupFlatten | src/app/admin/restrictions/page.tsx:78-106 | Regrouping the flattened rows gives back every customer with its own accounts, given distinct ids and no real account numbered "N/A" |
| CustomerRows.AggregateStatus | src/app/admin/restrictions/page.tsx:156-161 | The summary is ACTIVE iff all are ACTIVE (so for none too) and SUSPENDED iff all of at least one are. PENDING only with a PENDING account; MIXED only without one |
| CustomerRows.Propose | src/app/admin/restrictions/page.tsx:234 | UNRESTRICT is offered exactly when the summary is SUSPENDED |
| CustomerRows.ProposalAfterRestrict | src/app/admin/restrictions/page.tsx:156-161 | After the toggle restricts a customer with accounts, the page offers UNRESTRICT |
| CustomerRows.ProposalAfterUnrestrict | src/app/admin/restrictions/page.tsx:156-161 | After the toggle lifts a restriction, the page offers RESTRICT |
| CustomerRows.NoAccountsProposeRestrict | src/app/admin/restrictions/page.tsx:234 | A customer without accounts is always offered RESTRICT |
| History.FindIndex | src/app/customer/transactions/page.tsx:56 | findIndex gives the first position with the id, or none when the id is absent |
| History.Dedup | src/app/customer/transactions/page.tsx:54-57 | The kept ids are distinct and are the input's ids in order of first occurrence. Each kept entry is the first entry of the input with its id |
| History.TransactionList | src/app/customer/transactions/page.tsx:54-63 | One row per distinct id, in order of first appearance, each showing that id's first entry. The rows are exactly Dedup's entries, and uniqueIndex equals the list position |
| History.ShowOnList | src/app/customer/transactions/page.tsx:94-100 | The amount is shown as \|amount\|, with "+" iff the type is CREDIT or OPENING |
| History.Recent | src/app/customer/dashboard/page.tsx:114-119 | Entries with distinct ids, all from the first ten: three of them when the first ten hold at least three distinct ids, otherwise one per distinct id |
| History.RecentIsPrefixOfList | src/app/customer/dashboard/page.tsx:114-125 | The dashboard's entries are the first entries of the transactions page's list |
| History.ClassificationsAgree | src/app/customer/dashboard/page.tsx:457 | For a balanced entry with a positive amount, the two pages' credit tests agree iff it is not a TRANSFER |
| History.IncomingLegShownAsDebit | src/app/customer/transactions/page.tsx:94-100 | An incoming transfer leg is a credit on the dashboard but shown with "-" on the transactions page |
| Formats.GroupDigits | src/lib/format.ts:31-41 | Grouping only inserts characters, at most one space for every k input characters |
| Formats.FormatAccountNumber | src/lib/format.ts:31-33 | Removing the spaces gives back any input without spaces. An all-digit input of n ≥ 1 characters becomes n + (n − 1) / 4 characters, neither starting nor ending with a space |
| Formats.FormatRoutingNumber | src/lib/format.ts:39-41 | Removing the spaces gives back any input without spaces. An all-digit input of n ≥ 1 characters becomes n + (n − 1) / 3 characters, neither starting nor ending with a space |
| Formats.GroupDigitsRoundTrip | src/lib/format.ts:31-33 | Deleting the inserted spaces gives back any input without spaces |
| Formats.GroupDigitsLength | src/lib/format.ts:31-33 | An all-digit input of n ≥ 1 characters gains Gaps(n, k) spaces and neither starts nor ends with a space |
| Formats.GapsClosedForm | src/lib/format.ts:31-33 | The number of spaces is (n − 1) / 4 for account numbers and (n − 1) / 3 for routing numbers |
| Formats.GroupDigitsShort | src/lib/format.ts:39-41 | Inputs no longer than the group are unchanged |
| Formats.FormatAccountExample | src/lib/format.ts:29-33 | "1234567890" is shown as "1234 5678 90" |
| Formats.FormatRoutingExample | src/lib/format.ts:37-41 | "021000021" is shown as "021 000 021" |
| Formats.MaskAccountNumber | src/lib/utils.ts:74-77 | Up to 4 characters are unchanged, otherwise "XXXX " and the last 4 |
| Formats.MaskCardNumber | src/lib/utils.ts:80-83 | Unchanged unless 16 long, then the first 4, " XXXX XXXX " and the last 4 |
| Formats.MaskMobileNumber | src/lib/utils.ts:86-89 | Unchanged unless 10 long, then the first 3, "XXXXX" and the last 2 |
| Formats.MasksIdempotent | src/lib/utils.ts:74-89 | Masking a masked number changes nothing |
| Formats.GenerateAccountNumber | src/lib/utils.ts:9-12 | The generated number is nine digits |
| Registration.GeneratedNumberIsFirstBase | src/lib/utils.ts:9-12 | The library's constant is exactly the decimal text of 702346799, the account number the register route starts from, and parses back to it |
| Validators.IsValidMobile | src/lib/utils.ts:92-94 | True iff ten characters, the first 6-9 and the rest digits |
| Validators.IsValidPan | src/lib/utils.ts:97-99 | True iff five capitals, four digits, one capital |
| Validators.IsValidAadhaar | src/lib/utils.ts:102-104 | True iff exactly twelve digits |
| Validators.IsValidIfsc | src/lib/utils.ts:107-109 | True iff four capitals, "0", then six capitals or digits |
| Validators.IsValidPin | src/lib/validations.ts:31 | True iff exactly six digits |
| Validators.FullMatchWidth | src/lib/utils.ts:92-109 | An anchored match has exactly the pattern's width |
| Validators.PasswordIssues | src/lib/validations.ts:42-45 | No issue iff at least 8 characters with a capital, a small letter and a digit. At most four issues, and the length issue comes first for a short password |
| Validators.Confirm | src/lib/validations.ts:47-50 | The refinement reports "Passwords don't match" on confirmPassword iff the two differ |
| Validators.FieldIssues | src/lib/validations.ts:4-46 | The field checks pass iff the form is valid apart from the confirmation, and none is reported on confirmPassword |
| Validators.RegistrationIssues | src/lib/validations.ts:4-50 | No issue iff the form is valid. The last issue is the mismatch iff the passwords differ and both enum fields parse. When an enum field fails, the refine is skipped and there is no mismatch issue |
| Validators.ChangePasswordIssues | src/lib/validations.ts:94-104 | No issue iff a current password is given, the new one is strong and it is confirmed. The last issue is the mismatch iff the confirmation differs |
| Validators.BeneficiaryIssues | src/lib/validations.ts:74-79 | No issue iff the name has ≥ 2 characters, the account number ≥ 10, the IFSC matches and the type is SAVING or CURRENT |
| Validators.FundTransferIssues | src/lib/validations.ts:82-86 | No issue iff a beneficiary is chosen and the amount is 1–100000 currency units (100–10 000 000 cents); a low amount reports the minimum |
| Validators.OtpIssues | src/lib/validations.ts:89-91 | No issue iff the OTP has six characters |
| Validators.CreditFormIssues | src/lib/validations.ts:112-116 | No issue iff an account number is given and the amount is at least 100 cents |
| Validators.DeleteAccountIssues | src/lib/validations.ts:119-123 | No issue iff both ids are given and the reason has ≥ 10 characters |
| Validators.StaffLoginIssues | src/lib/validations.ts:58-61 | No issue iff staff number and password are given |
| Validators.DebitCardIssues | src/lib/validations.ts:64-71 | No issue iff the account, a holder name of ≥ 2 characters and a birth date are given, and PAN and mobile pass the library validators; a bad PAN is reported |
| Validators.AccountApprovalIssues | src/lib/validations.ts:107-109 | No issue iff a customer id is given |
| Validators.FundTransferFormMeetsServer | src/lib/validations.ts:84 | An amount the form accepts, with a recipient and a description, passes the transfer route's schema |
| RouteGuard.Guard | src/middleware.ts:5-43 | Without a token, customer and admin pages redirect to /login and everything else passes. With a token, an auth page sends CUSTOMER and ADMIN to their dashboards. A customer page passes iff the role is CUSTOMER, and an admin page iff ADMIN; otherwise they redirect to "/" |
| RouteGuard.AreasDisjoint | src/middleware.ts:11-16 | A path is in at most one of the three areas |
| RouteGuard.NoRedirectLoop | src/middleware.ts:18-42 | Following a redirect never redirects again |
| RegisterWizard.NextStep | src/app/register/page.tsx:184-186 | Next moves forward below step 4 and stays at 4 |
| RegisterWizard.PrevStep | src/app/register/page.tsx:188-190 | Back moves back above step 1 and stays at 1 |
| RegisterWizard.StepsInverse | src/app/register/page.tsx:184-190 | Next then back, or back then next, returns to the step away from the ends |
| RegisterWizard.ForwardReachesLast | src/app/register/page.tsx:184-186 | Enough presses of Next reach step 4 from anywhere |
| RegisterWizard.Submit | src/app/register/page.tsx:61-130 | The form is posted iff every check passes. A mismatch is reported first and a short password next, neither moving the step. Otherwise the first failing step is 2 (gender, mobile), then 3 (SSN, licence), then 4 (ZIP) |
| RegisterWizard.KeepDigits | src/app/register/page.tsx:391 | The SSN input keeps only digits and leaves digits unchanged |
| RegisterWizard.KeepDigitsAppend | src/app/register/page.tsx:502 | The kept digits are the input's digits in order |
| RegisterWizard.KeepDigitsIdempotent | src/app/register/page.tsx:391 | Filtering twice is filtering once |
| RegisterWizard.PostedFormMeetsServer | src/app/api/customer/register/route.ts:8-24 | A posted form meets the server's password, mobile, SSN, licence-minimum and ZIP rules |
| RegisterWizard.LongLicencePassesPage | src/app/api/customer/register/route.ts:17 | handleSubmit accepts a 21-character licence, which the server rejects as too long. Only the input's maxLength keeps such a licence from being posted |

## Left out

- Database I/O, row locking and the `$transaction` units. Each route is one function from the bank to a new bank or an error. A unit that throws leaves the bank unchanged.
- Generated transaction ids and clock values are parameters. A generated id that clashes with an existing entry fails as `DuplicateKey` (the database's unique constraint).
- Audit-log writes, sessions and role checks inside the routes, bcrypt hashing and the sign-in logic: none of them decides a ledger change.
- Money is integer cents, not floating point, so `parseFloat` rounding is not modelled. `formatCurrency`, `formatAmount` and `formatDate` (Intl formatting) are left out.
- The random generators in the shared library (customer, staff, transaction, card, PIN, CVV and OTP), and the unused random account-number helper in the register route: they depend on randomness.
- Registration.CustomerSequence: its contract covers numbers that start with "CUST"; numbers without "CUST" are covered by the lemma SequenceWithoutPrefix, and one with "CUST" only further inside is left to the body, because the generator never writes one.
- Numbers.ParseInt: leading whitespace and precision beyond 2^53 are not modelled.
- Whether `new Date(text)` yields a valid date is a parameter (`isDate`) of Registration.Register and Restrictions.RestrictAccount, because JavaScript's date parsing is implementation-defined.
- The restrict-customer route (src/app/api/admin/restrict-customer/route.ts:43, 60, 72) and the inter-account transfer route (src/app/api/admin/inter-account-transfer/route.ts:49) look customers up by the database id, and the approve-account route (src/app/api/admin/approve-account/route.ts:37, 64, 93) looks its account up by the database id. The model keys customers by their customer number and accounts by their account number, and identifies each with the database id.
- E-mail syntax checks and the login schema, which is only an e-mail and a password, are not modelled.
- The date-of-birth age checks of the registration schema, because they depend on the clock.
- Validators.RegistrationIssues: covers the fields with a pattern, length or enum check. The e-mail, date-of-birth and optional fields are omitted, and zod's default enum message is abbreviated to "Invalid enum value".
- String lengths are counted in code points rather than UTF-16 units.
- The middleware's path matcher, and the browser's `maxLength` on the wizard's SSN, driver's licence and ZIP inputs (src/app/register/page.tsx:392, 405, 503): the browser enforces these, not `handleSubmit`.
- The customer list's search filter and its page size of 50.
- The read-only listing routes, the profile and customer edit routes, the luxury-transaction generator, the scripts and the seed: they are outside the ledger.
- The dashboard's amount display has no member of its own: it shows the same magnitude as `History.ShowOnList`.
