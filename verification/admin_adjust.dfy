/**
 * The administrator's balance adjustments: credit and debit of one ACTIVE account, and
 * the move between two accounts of the same customer. Customer restrictions are not
 * consulted by any of them.
 */
module AdminAdjust {
  import opened Results
  import opened Bank

  datatype AdjustRequest = AdjustRequest(accountNumber: AccountNumber, amount: Money, description: string, remark: Option<string>)

  /** The credit and debit schemas. */
  predicate ValidAdjust(req: AdjustRequest) {
    |req.accountNumber| >= 1 && req.amount > 0 && |req.description| >= 1
  }

  /** POST /api/admin/credit with generated id `txId`. */
  function CreditAccount(b: Bank, req: AdjustRequest, txId: TxId): (r: Result<Bank, Error>)
    requires Wf(b)
    ensures !ValidAdjust(req) ==> r == Failure(Invalid)
    ensures ValidAdjust(req) && req.accountNumber !in b.accounts ==> r == Failure(AccountNotFound)
    ensures ValidAdjust(req) && req.accountNumber in b.accounts && b.accounts[req.accountNumber].status != Active ==>
      r == Failure(NotActive(b.accounts[req.accountNumber].status))
    ensures r.Success? <==>
      ValidAdjust(req) && req.accountNumber in b.accounts && b.accounts[req.accountNumber].status == Active && txId !in b.entries
    ensures r.Success? ==>
      var n, a := req.accountNumber, req.amount;
      && Wf(r.value) && r.value.customers == b.customers && r.value.emails == b.emails
      && AccountsKeptExcept(b, r.value, {n})
      && r.value.accounts[n] == b.accounts[n].(balance := b.accounts[n].balance + a)
      && EntriesUpdated(b, r.value, {}, {txId})
      && var e := r.value.entries[txId];
      && e.account == n && e.kind == Credit && e.status == Completed && e.amount == a
      && e.before == b.accounts[n].balance && e.after == r.value.accounts[n].balance && Balanced(e)
      && e.remark == req.remark
    ensures r.Success? && NonNegative(b) ==> NonNegative(r.value)
  {
    if !ValidAdjust(req) then Failure(Invalid)
    else if req.accountNumber !in b.accounts then Failure(AccountNotFound)
    else
      var acc := b.accounts[req.accountNumber];
      if acc.status != Active then Failure(NotActive(acc.status))
      else if txId in b.entries then Failure(DuplicateKey)
      else
        var e := Entry(txId, acc.number, Credit, req.amount, acc.balance, acc.balance + req.amount,
                       req.description, Completed, None, None, None, req.remark);
        Success(b.(accounts := b.accounts[acc.number := acc.(balance := acc.balance + req.amount)],
                   entries := b.entries[txId := e]))
  }

  /** POST /api/admin/debit with generated id `txId`; the DEBIT row stores the amount unsigned. */
  function DebitAccount(b: Bank, req: AdjustRequest, txId: TxId): (r: Result<Bank, Error>)
    requires Wf(b)
    ensures !ValidAdjust(req) ==> r == Failure(Invalid)
    ensures ValidAdjust(req) && req.accountNumber !in b.accounts ==> r == Failure(AccountNotFound)
    ensures ValidAdjust(req) && req.accountNumber in b.accounts && b.accounts[req.accountNumber].status != Active ==>
      r == Failure(NotActive(b.accounts[req.accountNumber].status))
    ensures r == Failure(InsufficientBalance) <==>
      && ValidAdjust(req) && req.accountNumber in b.accounts && b.accounts[req.accountNumber].status == Active
      && b.accounts[req.accountNumber].balance < req.amount
    ensures r.Success? <==>
      && ValidAdjust(req) && req.accountNumber in b.accounts && b.accounts[req.accountNumber].status == Active
      && req.amount <= b.accounts[req.accountNumber].balance && txId !in b.entries
    ensures r.Success? ==>
      var n, a := req.accountNumber, req.amount;
      && Wf(r.value) && r.value.customers == b.customers && r.value.emails == b.emails
      && AccountsKeptExcept(b, r.value, {n})
      && r.value.accounts[n] == b.accounts[n].(balance := b.accounts[n].balance - a)
      && r.value.accounts[n].balance >= 0
      && EntriesUpdated(b, r.value, {}, {txId})
      && var e := r.value.entries[txId];
      && e.account == n && e.kind == Debit && e.status == Completed && e.amount == a
      && e.before == b.accounts[n].balance && e.after == e.before - a && Balanced(e)
      && e.remark == req.remark
    ensures r.Success? && NonNegative(b) ==> NonNegative(r.value)
  {
    if !ValidAdjust(req) then Failure(Invalid)
    else if req.accountNumber !in b.accounts then Failure(AccountNotFound)
    else
      var acc := b.accounts[req.accountNumber];
      if acc.status != Active then Failure(NotActive(acc.status))
      else if acc.balance < req.amount then Failure(InsufficientBalance)
      else if txId in b.entries then Failure(DuplicateKey)
      else
        var e := Entry(txId, acc.number, Debit, req.amount, acc.balance, acc.balance - req.amount,
                       req.description, Completed, None, None, None, req.remark);
        Success(b.(accounts := b.accounts[acc.number := acc.(balance := acc.balance - req.amount)],
                   entries := b.entries[txId := e]))
  }

  datatype MoveRequest = MoveRequest(customer: CustomerNumber, from: AccountNumber, to: AccountNumber,
                                     amount: Money, description: Option<string>)

  /** The accounts the ownership query returns: those of the customer among the two numbers. */
  function OwnedAmong(b: Bank, customer: CustomerNumber, numbers: set<AccountNumber>): set<AccountNumber> {
    set n | n in numbers && n in b.accounts && b.accounts[n].owner == customer
  }

  predicate OwnedBy(b: Bank, customer: CustomerNumber, n: AccountNumber) {
    n in b.accounts && b.accounts[n].owner == customer
  }

  /** The query returns exactly two rows iff the numbers differ and both are the customer's. */
  lemma OwnedAmongPair(b: Bank, customer: CustomerNumber, f: AccountNumber, t: AccountNumber)
    ensures |OwnedAmong(b, customer, {f, t})| == 2 <==> f != t && OwnedBy(b, customer, f) && OwnedBy(b, customer, t)
  {
    var s := OwnedAmong(b, customer, {f, t});
    var sf: set<AccountNumber> := if OwnedBy(b, customer, f) then {f} else {};
    var st: set<AccountNumber> := if OwnedBy(b, customer, t) then {t} else {};
    assert s == sf + st;
    if f == t {
      assert s == sf;
    }
  }

  /** Write entry `e` on its account and set that account's balance to the entry's balance after. */
  function Post(b: Bank, e: Entry): (r: Bank)
    requires Wf(b) && e.account in b.accounts && e.id !in b.entries
    requires e.before == b.accounts[e.account].balance && Balanced(e)
    ensures Wf(r) && r.customers == b.customers && r.emails == b.emails
    ensures AccountsKeptExcept(b, r, {e.account})
    ensures r.accounts[e.account] == b.accounts[e.account].(balance := e.after)
    ensures EntriesUpdated(b, r, {}, {e.id}) && r.entries[e.id] == e
  {
    var acc := b.accounts[e.account];
    b.(accounts := b.accounts[e.account := acc.(balance := e.after)], entries := b.entries[e.id := e])
  }

  /** The description both legs start from. */
  function MoveText(req: MoveRequest): string {
    if req.description.Some? then req.description.value else "Inter-account transfer"
  }

  /** The two legs of a move of `a` from account `f` to account `t`, written as one unit. */
  function MoveLegs(b: Bank, f: AccountNumber, t: AccountNumber, a: Money, text: string, debitId: TxId, creditId: TxId): (r: Bank)
    requires Wf(b) && f in b.accounts && t in b.accounts && f != t
    requires debitId != creditId && debitId !in b.entries && creditId !in b.entries
    ensures Wf(r) && r.customers == b.customers && r.emails == b.emails
    ensures AccountsKeptExcept(b, r, {f, t})
    ensures r.accounts[f] == b.accounts[f].(balance := b.accounts[f].balance - a)
    ensures r.accounts[t] == b.accounts[t].(balance := b.accounts[t].balance + a)
    ensures r.accounts[f].balance + r.accounts[t].balance == b.accounts[f].balance + b.accounts[t].balance
    ensures EntriesUpdated(b, r, {}, {debitId, creditId})
    ensures var d := r.entries[debitId];
      d.account == f && d.kind == Debit && d.amount == a && d.before == b.accounts[f].balance && Balanced(d) && d.status == Completed
    ensures var c := r.entries[creditId];
      c.account == t && c.kind == Credit && c.amount == a && c.before == b.accounts[t].balance && Balanced(c) && c.status == Completed
  {
    var x, y := b.accounts[f], b.accounts[t];
    var d := Entry(debitId, f, Debit, a, x.balance, x.balance - a,
                   text + " to " + t, Completed, None, None, None, None);
    var c := Entry(creditId, t, Credit, a, y.balance, y.balance + a,
                   text + " from " + f, Completed, None, None, None, None);
    var b1 := Post(b, d);
    var r := Post(b1, c);
    KeptTwice(b, b1, r, f, t);
    UpdatedTwice(b, b1, r, debitId, creditId);
    r
  }

  lemma KeptTwice(b: Bank, b1: Bank, b2: Bank, f: AccountNumber, t: AccountNumber)
    requires AccountsKeptExcept(b, b1, {f}) && AccountsKeptExcept(b1, b2, {t})
    ensures AccountsKeptExcept(b, b2, {f, t})
  {
  }

  lemma UpdatedTwice(b: Bank, b1: Bank, b2: Bank, i: TxId, j: TxId)
    requires EntriesUpdated(b, b1, {}, {i}) && EntriesUpdated(b1, b2, {}, {j}) && i != j
    ensures EntriesUpdated(b, b2, {}, {i, j})
  {
  }

  /**
   * POST /api/admin/inter-account-transfer with generated ids `debitId` and `creditId`.
   * Only ownership and balance gate the move; account status is not consulted.
   */
  function MoveBetweenAccounts(b: Bank, req: MoveRequest, debitId: TxId, creditId: TxId): (r: Result<Bank, Error>)
    requires Wf(b)
    ensures req.amount <= 0 ==> r == Failure(Invalid)
    ensures req.amount > 0 && |OwnedAmong(b, req.customer, {req.from, req.to})| != 2 ==> r == Failure(InvalidAccounts)
    ensures req.from == req.to ==> r.Failure?
    ensures r == Failure(InsufficientBalance) <==>
      && req.amount > 0
      && req.from != req.to && req.from in b.accounts && req.to in b.accounts
      && b.accounts[req.from].owner == req.customer && b.accounts[req.to].owner == req.customer
      && b.accounts[req.from].balance < req.amount
    ensures r.Success? <==>
      && req.amount > 0
      && req.from != req.to && req.from in b.accounts && req.to in b.accounts
      && b.accounts[req.from].owner == req.customer && b.accounts[req.to].owner == req.customer
      && req.amount <= b.accounts[req.from].balance
      && debitId != creditId && debitId !in b.entries && creditId !in b.entries
    ensures r.Success? ==> r.value == MoveLegs(b, req.from, req.to, req.amount, MoveText(req), debitId, creditId)
    ensures r.Success? && NonNegative(b) ==> NonNegative(r.value)
  {
    OwnedAmongPair(b, req.customer, req.from, req.to);
    if req.amount <= 0 then Failure(Invalid)
    else if |OwnedAmong(b, req.customer, {req.from, req.to})| != 2 then Failure(InvalidAccounts)
    else if b.accounts[req.from].balance < req.amount then Failure(InsufficientBalance)
    else if debitId in b.entries || creditId in b.entries || debitId == creditId then Failure(DuplicateKey)
    else
      Success(MoveLegs(b, req.from, req.to, req.amount, MoveText(req), debitId, creditId))
  }
}
