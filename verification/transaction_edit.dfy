/**
 * The administrator's edit of a transaction row: description and status are replaced
 * as given; a changed amount of a DEBIT or CREDIT row shifts the row's balanceAfter and
 * the account's balance by the difference. Nothing stops the balance going negative.
 */
module TransactionEdit {
  import opened Results
  import opened Bank

  datatype EditRequest = EditRequest(txId: TxId, description: Option<string>, amount: Option<Money>, status: Option<string>)

  /** The status enum of the edit schema. */
  function ParseEditStatus(s: string): (r: Option<TxStatus>)
    ensures r.Some? ==> r.value in {TxStatus.Pending, Completed, Failed, Cancelled}
    ensures r.None? <==> s !in {"PENDING", "COMPLETED", "FAILED", "CANCELLED"}
  {
    if s == "PENDING" then Some(TxStatus.Pending)
    else if s == "COMPLETED" then Some(Completed)
    else if s == "FAILED" then Some(Failed)
    else if s == "CANCELLED" then Some(Cancelled)
    else None
  }

  predicate ValidEdit(req: EditRequest) {
    && (req.amount.Some? ==> req.amount.value > 0)
    && (req.status.Some? ==> ParseEditStatus(req.status.value).Some?)
  }

  /** The amount edit reaches the balances: a DEBIT or CREDIT row whose amount really changes. */
  predicate Reprices(e: Entry, amount: Option<Money>) {
    amount.Some? && amount.value != e.amount && e.kind in {Debit, Credit}
  }

  /** How far the edit moves the row's balanceAfter and the account's balance. */
  function Shift(e: Entry, amount: Option<Money>): (d: Money)
    ensures !Reprices(e, amount) ==> d == 0
    ensures Reprices(e, amount) && e.kind == Debit ==> d == -(amount.value - e.amount)
    ensures Reprices(e, amount) && e.kind == Credit ==> d == amount.value - e.amount
  {
    if !Reprices(e, amount) then 0
    else if e.kind == Debit then e.amount - amount.value
    else amount.value - e.amount
  }

  /** The edited row. */
  function EditEntry(e: Entry, req: EditRequest): (e': Entry)
    requires ValidEdit(req)
    ensures e'.id == e.id && e'.account == e.account && e'.kind == e.kind
    // balanceBefore is never rewritten
    ensures e'.before == e.before
    ensures e'.after == e.after + Shift(e, req.amount)
    ensures e'.amount == if Reprices(e, req.amount) then req.amount.value else e.amount
    ensures e'.description == if req.description.Some? then req.description.value else e.description
    ensures e'.status == if req.status.Some? then ParseEditStatus(req.status.value).value else e.status
    // a DEBIT or CREDIT row keeps balanceAfter = balanceBefore + its effect
    ensures e.kind in {Debit, Credit} && Balanced(e) ==> Balanced(e')
    ensures e'.receiverAccount == e.receiverAccount && e'.remark == e.remark
    // nothing but the four written columns changes
    ensures e' == e.(amount := e'.amount, after := e'.after, description := e'.description, status := e'.status)
  {
    var described := if req.description.Some? then e.(description := req.description.value) else e;
    var stated := if req.status.Some? then described.(status := ParseEditStatus(req.status.value).value) else described;
    if Reprices(e, req.amount) then stated.(amount := req.amount.value, after := e.after + Shift(e, req.amount))
    else stated
  }

  /** PUT /api/admin/transactions/edit. */
  function Edit(b: Bank, req: EditRequest): (r: Result<Bank, Error>)
    requires Wf(b)
    ensures !ValidEdit(req) ==> r == Failure(Invalid)
    ensures ValidEdit(req) && req.txId !in b.entries ==> r == Failure(TransactionNotFound)
    ensures r.Success? <==> ValidEdit(req) && req.txId in b.entries
    ensures r.Success? ==>
      var e := b.entries[req.txId];
      var n := e.account;
      && Wf(r.value) && r.value.customers == b.customers && r.value.emails == b.emails
      && EntriesUpdated(b, r.value, {req.txId}, {})
      && r.value.entries[req.txId] == EditEntry(e, req)
      // only the entry's account can change, and only by the same shift as its balanceAfter
      && AccountsKeptExcept(b, r.value, {n})
      && r.value.accounts[n] == b.accounts[n].(balance := b.accounts[n].balance + Shift(e, req.amount))
  {
    if !ValidEdit(req) then Failure(Invalid)
    else if req.txId !in b.entries then Failure(TransactionNotFound)
    else
      var e := b.entries[req.txId];
      var acc := b.accounts[e.account];
      Success(b.(accounts := b.accounts[acc.number := acc.(balance := acc.balance + Shift(e, req.amount))],
                 entries := b.entries[req.txId := EditEntry(e, req)]))
  }

  /** A status or description edit, or an amount equal to the stored one, moves no balance. */
  lemma EditWithoutRepriceKeepsBalances(b: Bank, req: EditRequest)
    requires Wf(b) && Edit(b, req).Success?
    requires !Reprices(b.entries[req.txId], req.amount)
    ensures Edit(b, req).value.accounts == b.accounts
    ensures Edit(b, req).value.entries[req.txId].after == b.entries[req.txId].after
  {
    var n := b.entries[req.txId].account;
    assert b.accounts[n].(balance := b.accounts[n].balance) == b.accounts[n];
  }

  /** An amount edit can leave the account with a negative balance. */
  lemma EditCanOverdraw()
    ensures var b := Bank(
              map["1000000001" := Account("1000000001", "CUST0000000001", Current, Active, 100, None, None)],
              map["CUST0000000001" := Customer("CUST0000000001", "a@b.c", "5550000000", "123456789", "D1234", Unrestricted)],
              map["TXN1" := Entry("TXN1", "1000000001", Debit, 50, 150, 100, "fee", Completed, None, None, None, None)],
              {"a@b.c"});
            var r := Edit(b, EditRequest("TXN1", None, Some(200), None));
            r.Success? && r.value.accounts["1000000001"].balance == -50
  {
  }
}
