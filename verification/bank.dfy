/**
 * The persisted state the route handlers read and write: accounts, customers with their
 * restriction fields, transaction entries, and the e-mail addresses of registered users.
 * Every handler is modelled as a function from this state (and the request) to a new
 * state or an error; an error leaves the state as it was, which is what the handlers'
 * early returns and the rolled-back database transactions give.
 */
module Bank {
  import opened Results
  import opened Numbers

  /** Account numbers are unique, so the model uses them as the accounts' identity. */
  type AccountNumber = string
  /** Customer numbers are unique, so the model uses them as the customers' identity. */
  type CustomerNumber = string
  /** The human-readable transactionId of an entry ("TXN..."), unique per entry. */
  type TxId = string
  /** A point in time, as handed in by the caller (the handlers read the clock). */
  type Timestamp = string
  /** Amounts and balances in integer cents. */
  type Money = int

  /** Transfers of 500.00 or more wait for an administrator. */
  const ApprovalThreshold: Money := 50000

  datatype AccountType = Current | Saving
  datatype AccountStatus = Pending | Active | Suspended | Closed
  datatype TxType = Opening | Credit | Debit | Transfer
  datatype TxStatus = Pending | PendingApproval | Completed | Rejected | Failed | Cancelled

  datatype RestrictionKind =
    | Frozen | TransferBlocked | WithdrawalLimit | PendingVerification | SuspiciousActivity

  function KindName(k: RestrictionKind): string {
    match k
    case Frozen => "FROZEN"
    case TransferBlocked => "TRANSFER_BLOCKED"
    case WithdrawalLimit => "WITHDRAWAL_LIMIT"
    case PendingVerification => "PENDING_VERIFICATION"
    case SuspiciousActivity => "SUSPICIOUS_ACTIVITY"
  }

  /** The restriction-type enum of the request schemas. */
  function ParseKind(s: string): (r: Option<RestrictionKind>)
    ensures r.Some? ==> KindName(r.value) == s
    ensures forall k :: KindName(k) == s ==> r == Some(k)
  {
    if s == "FROZEN" then Some(Frozen)
    else if s == "TRANSFER_BLOCKED" then Some(TransferBlocked)
    else if s == "WITHDRAWAL_LIMIT" then Some(WithdrawalLimit)
    else if s == "PENDING_VERIFICATION" then Some(PendingVerification)
    else if s == "SUSPICIOUS_ACTIVITY" then Some(SuspiciousActivity)
    else None
  }

  /** The restriction columns of a customer row. */
  datatype Restriction = Restriction(
    isRestricted: bool,
    kind: Option<RestrictionKind>,
    reason: Option<string>,
    restrictedBy: Option<string>,
    restrictedAt: Option<Timestamp>,
    expiry: Option<Timestamp>)

  const Unrestricted := Restriction(false, None, None, None, None, None)

  datatype Customer = Customer(
    number: CustomerNumber,
    email: string,
    mobile: string,
    ssn: string,
    licence: string,
    restriction: Restriction)

  datatype Account = Account(
    number: AccountNumber,
    owner: CustomerNumber,
    kind: AccountType,
    status: AccountStatus,
    balance: Money,
    approvedBy: Option<string>,
    approvedAt: Option<Timestamp>)

  /**
   * One transaction row. TRANSFER legs carry a signed amount; CREDIT and DEBIT rows
   * written by the admin routes carry the unsigned amount.
   */
  datatype Entry = Entry(
    id: TxId,
    account: AccountNumber,
    kind: TxType,
    amount: Money,
    before: Money,
    after: Money,
    description: string,
    status: TxStatus,
    receiverAccount: Option<AccountNumber>,
    receiverId: Option<CustomerNumber>,
    senderId: Option<CustomerNumber>,
    remark: Option<string>)

  datatype Bank = Bank(
    accounts: map<AccountNumber, Account>,
    customers: map<CustomerNumber, Customer>,
    entries: map<TxId, Entry>,
    emails: set<string>)

  datatype Error =
    | Invalid                 // the request body fails its schema
    | SenderNotFound          // the customer has no ACTIVE account
    | Restricted(kind: Option<RestrictionKind>, reason: Option<string>)
    | InsufficientBalance
    | RecipientNotFound       // no ACTIVE account with that number
    | SelfTransfer
    | AccountNotFound
    | NotActive(status: AccountStatus)
    | CustomerNotFound
    | TransactionNotFound
    | AlreadyProcessed        // no such entry, or it is no longer PENDING_APPROVAL
    | ReceiverNotFound        // the receiver of a pending transfer is gone
    | InvalidAction
    | AdminNotFound           // the session's user has no admin record
    | NoPermission
    | AlreadyRestricted(current: Restriction)
    | NotRestricted
    | InvalidAccounts         // the two numbers are not two accounts of the customer
    | AccountNotPending
    | DuplicateEmail
    | DuplicateMobile
    | DuplicateSsn
    | DuplicateLicence
    | DuplicateKey            // a unique column rejected an insert; the unit of work rolls back
    | InvalidDate             // new Date(text) is an Invalid Date, which the database write rejects

  /** Referential integrity the database maintains: keys agree with rows and references resolve. */
  predicate Wf(b: Bank) {
    && (forall n :: n in b.accounts ==> b.accounts[n].number == n && b.accounts[n].owner in b.customers)
    && (forall c :: c in b.customers ==> b.customers[c].number == c)
    && (forall t :: t in b.entries ==> b.entries[t].id == t && b.entries[t].account in b.accounts)
  }

  predicate NonNegative(b: Bank) {
    forall n :: n in b.accounts ==> b.accounts[n].balance >= 0
  }

  /** The change of the owner's balance an entry records: DEBIT rows store the amount unsigned. */
  function Effect(e: Entry): Money {
    if e.kind == Debit then -e.amount else e.amount
  }

  /** balanceAfter = balanceBefore + the recorded change. */
  predicate Balanced(e: Entry) {
    e.after == e.before + Effect(e)
  }

  /** No account is added or removed, and only those in `touched` may differ. */
  predicate AccountsKeptExcept(b: Bank, b': Bank, touched: set<AccountNumber>) {
    && b'.accounts.Keys == b.accounts.Keys
    && forall n :: n in b.accounts && n !in touched ==> b'.accounts[n] == b.accounts[n]
  }

  /**
   * The entries `added` are new, only those in `touched` may differ, and every other
   * existing entry is unchanged; nothing is deleted.
   */
  predicate EntriesUpdated(b: Bank, b': Bank, touched: set<TxId>, added: set<TxId>) {
    && added !! b.entries.Keys
    && b'.entries.Keys == b.entries.Keys + added
    && forall t :: t in b.entries && t !in touched ==> b'.entries[t] == b.entries[t]
  }

  /** Every account keeps its balance (statuses may change). */
  predicate BalancesKept(b: Bank, b': Bank) {
    && b'.accounts.Keys == b.accounts.Keys
    && forall n :: n in b.accounts ==> b'.accounts[n].balance == b.accounts[n].balance
  }

  /** The id the receiving leg of a transfer gets: the sender leg's id with "-IN" appended. */
  function IncomingId(t: TxId): (r: TxId)
    ensures r != t && |r| == |t| + 3
  {
    t + "-IN"
  }

  /** A positive cent amount as JavaScript prints the dollar number ("750", "750.5", "750.05"). */
  function DollarText(cents: nat): string {
    var whole := NatToString(cents / 100);
    var frac := cents % 100;
    if frac == 0 then whole
    else if frac % 10 == 0 then whole + "." + [DigitChar(frac / 10)]
    else whole + "." + [DigitChar(frac / 10), DigitChar(frac % 10)]
  }
}
