/**
 * The customer's account overview: all accounts of the customer as the database lists
 * them (CURRENT before SAVING), their total balance whatever their status, the first
 * CURRENT account as checking, the first SAVING account as savings, and the
 * restriction columns passed through.
 */
module AccountView {
  import opened Results
  import opened Bank
  import AdminAdjust

  /** `accs` lists every account of customer `c` exactly once, as stored, CURRENT before SAVING. */
  predicate Listing(b: Bank, c: CustomerNumber, accs: seq<Account>) {
    && (forall i :: 0 <= i < |accs| ==> accs[i].number in b.accounts && b.accounts[accs[i].number] == accs[i] && accs[i].owner == c)
    && (forall i, j :: 0 <= i < j < |accs| ==> accs[i].number != accs[j].number)
    && (forall n :: n in b.accounts && b.accounts[n].owner == c ==> exists i :: 0 <= i < |accs| && accs[i].number == n)
    && (forall i, j :: 0 <= i < j < |accs| && accs[i].kind == Saving ==> accs[j].kind == Saving)
  }

  /** The reduce that adds up the balances. */
  function Sum(accs: seq<Account>): Money
    decreases |accs|
  {
    if accs == [] then 0 else Sum(accs[..|accs| - 1]) + accs[|accs| - 1].balance
  }

  /** Array.prototype.find on the account type. */
  function FirstOfKind(accs: seq<Account>, k: AccountType): (r: Option<Account>)
    ensures r.Some? ==> r.value.kind == k && exists i :: 0 <= i < |accs| && accs[i] == r.value && forall j :: 0 <= j < i ==> accs[j].kind != k
    ensures r.None? <==> forall i :: 0 <= i < |accs| ==> accs[i].kind != k
    decreases |accs|
  {
    if accs == [] then None
    else if accs[0].kind == k then Some(accs[0])
    else
      var r := FirstOfKind(accs[1..], k);
      if r.Some? then
        var i :| 0 <= i < |accs[1..]| && accs[1..][i] == r.value && forall j :: 0 <= j < i ==> accs[1..][j].kind != k;
        assert accs[i + 1] == r.value;
        r
      else r
  }

  datatype Overview = Overview(
    customer: CustomerNumber,
    totalBalance: Money,
    restriction: Restriction,
    accounts: seq<Account>,
    checking: Option<Account>,
    savings: Option<Account>)

  /** GET /api/customer/account for customer `c`, whose accounts the database lists as `accs`. */
  function View(b: Bank, c: CustomerNumber, accs: seq<Account>): (r: Result<Overview, Error>)
    requires Wf(b) && Listing(b, c, accs)
    // a missing customer and a customer without accounts get the same answer
    ensures r.Failure? ==> r.error == AccountNotFound
    ensures r.Success? <==> c in b.customers && exists n :: n in b.accounts && b.accounts[n].owner == c
    ensures r.Success? ==>
      && r.value.customer == c
      && r.value.accounts == accs
      && r.value.totalBalance == Sum(accs)
      && r.value.restriction == b.customers[c].restriction
    // checking is a CURRENT account of the customer, None only when there is none
    ensures r.Success? ==>
      && (r.value.checking.Some? ==> var a := r.value.checking.value;
            a.kind == Current && a.number in b.accounts && b.accounts[a.number] == a && a.owner == c)
      && (r.value.checking.None? <==> forall n :: n in b.accounts && b.accounts[n].owner == c ==> b.accounts[n].kind != Current)
      && (r.value.checking.Some? ==> r.value.checking.value == accs[0])
    ensures r.Success? ==>
      && (r.value.savings.Some? ==> var a := r.value.savings.value;
            a.kind == Saving && a.number in b.accounts && b.accounts[a.number] == a && a.owner == c)
      && (r.value.savings.None? <==> forall n :: n in b.accounts && b.accounts[n].owner == c ==> b.accounts[n].kind != Saving)
    // each is the first account of its type in the listing, as find returns it
    ensures r.Success? ==> r.value.checking == FirstOfKind(accs, Current) && r.value.savings == FirstOfKind(accs, Saving)
  {
    if c !in b.customers || accs == [] then Failure(AccountNotFound)
    else
      assert accs[0].number in b.accounts && b.accounts[accs[0].number].owner == c;
      var checking := FirstOfKind(accs, Current);
      var savings := FirstOfKind(accs, Saving);
      assert checking.None? <== forall n :: n in b.accounts && b.accounts[n].owner == c ==> b.accounts[n].kind != Current by {
        if checking.Some? {
          var i :| 0 <= i < |accs| && accs[i] == checking.value;
          assert accs[i].number in b.accounts;
        }
      }
      assert savings.None? <== forall n :: n in b.accounts && b.accounts[n].owner == c ==> b.accounts[n].kind != Saving by {
        if savings.Some? {
          var i :| 0 <= i < |accs| && accs[i] == savings.value;
          assert accs[i].number in b.accounts;
        }
      }
      Success(Overview(c, Sum(accs), b.customers[c].restriction, accs, checking, savings))
  }

  /** Changing one account's balance changes the sum by the same amount. */
  lemma {:induction false} SumUpdate(accs: seq<Account>, i: nat, a: Account)
    requires i < |accs|
    ensures Sum(accs[i := a]) == Sum(accs) - accs[i].balance + a.balance
    decreases |accs|
  {
    var last := |accs| - 1;
    if i < last {
      assert accs[i := a][..last] == accs[..last][i := a];
      SumUpdate(accs[..last], i, a);
    } else {
      assert accs[i := a][..last] == accs[..last];
    }
  }

  /** The listing re-read from `b`. */
  function Reread(b: Bank, accs: seq<Account>): (r: seq<Account>)
    requires forall i :: 0 <= i < |accs| ==> accs[i].number in b.accounts
    ensures |r| == |accs| && forall i :: 0 <= i < |accs| ==> r[i] == b.accounts[accs[i].number]
  {
    seq(|accs|, i requires 0 <= i < |accs| => b.accounts[accs[i].number])
  }

  /** When accounts change only in their balances, the re-read listing is still the customer's listing. */
  lemma RereadListing(b: Bank, b': Bank, c: CustomerNumber, accs: seq<Account>, touched: set<AccountNumber>)
    requires Listing(b, c, accs)
    requires AccountsKeptExcept(b, b', touched)
    requires forall n :: n in touched && n in b.accounts ==> b'.accounts[n] == b.accounts[n].(balance := b'.accounts[n].balance)
    ensures Listing(b', c, Reread(b', accs))
  {
    var after := Reread(b', accs);
    forall i | 0 <= i < |after|
      ensures after[i].number == accs[i].number && after[i].owner == c && after[i].kind == accs[i].kind
    {
      assert accs[i].number in b.accounts;
    }
    forall n | n in b'.accounts && b'.accounts[n].owner == c
      ensures exists k :: 0 <= k < |after| && after[k].number == n
    {
      assert b.accounts[n].owner == c;
      var k :| 0 <= k < |accs| && accs[k].number == n;
      assert after[k].number == n;
    }
  }

  /**
   * When only two accounts of the customer change, and only in their balances, whose
   * sum stays, the re-read total is unchanged.
   */
  lemma TwoBalancesMoved(b: Bank, b': Bank, c: CustomerNumber, accs: seq<Account>, f: AccountNumber, t: AccountNumber)
    requires Listing(b, c, accs) && f != t
    requires f in b.accounts && t in b.accounts && b.accounts[f].owner == c && b.accounts[t].owner == c
    requires AccountsKeptExcept(b, b', {f, t})
    requires b'.accounts[f] == b.accounts[f].(balance := b'.accounts[f].balance)
    requires b'.accounts[t] == b.accounts[t].(balance := b'.accounts[t].balance)
    requires b'.accounts[f].balance + b'.accounts[t].balance == b.accounts[f].balance + b.accounts[t].balance
    ensures Sum(Reread(b', accs)) == Sum(accs)
  {
    var i :| 0 <= i < |accs| && accs[i].number == f;
    var j :| 0 <= j < |accs| && accs[j].number == t;
    RereadTwo(b, b', accs, i, j);
    SumUpdate(accs, i, b'.accounts[f]);
    SumUpdate(accs[i := b'.accounts[f]], j, b'.accounts[t]);
  }

  /** Re-reading a listing in which only the accounts at `i` and `j` changed replaces those two. */
  lemma RereadTwo(b: Bank, b': Bank, accs: seq<Account>, i: nat, j: nat)
    requires i < |accs| && j < |accs| && i != j
    requires forall k :: 0 <= k < |accs| ==> accs[k].number in b.accounts && b.accounts[accs[k].number] == accs[k]
    requires forall k, l :: 0 <= k < l < |accs| ==> accs[k].number != accs[l].number
    requires AccountsKeptExcept(b, b', {accs[i].number, accs[j].number})
    ensures Reread(b', accs) == accs[i := b'.accounts[accs[i].number]][j := b'.accounts[accs[j].number]]
  {
    var after := Reread(b', accs);
    var swapped := accs[i := b'.accounts[accs[i].number]][j := b'.accounts[accs[j].number]];
    forall k | 0 <= k < |accs|
      ensures after[k] == swapped[k]
    {
      if k != i && k != j {
        assert accs[k].number != accs[i].number && accs[k].number != accs[j].number by {
          if k < i { assert accs[k].number != accs[i].number; } else { assert accs[i].number != accs[k].number; }
          if k < j { assert accs[k].number != accs[j].number; } else { assert accs[j].number != accs[k].number; }
        }
      }
    }
  }

  /** A move between two accounts of a customer leaves the customer's total balance as it was. */
  lemma MoveKeepsTotal(b: Bank, b': Bank, req: AdminAdjust.MoveRequest, debitId: TxId, creditId: TxId, accs: seq<Account>)
    requires Wf(b) && Listing(b, req.customer, accs)
    requires AdminAdjust.MoveBetweenAccounts(b, req, debitId, creditId) == Success(b')
    ensures Listing(b', req.customer, Reread(b', accs)) && Sum(Reread(b', accs)) == Sum(accs)
  {
    var f, t := req.from, req.to;
    assert f != t && f in b.accounts && t in b.accounts && b.accounts[f].owner == req.customer && b.accounts[t].owner == req.customer;
    assert AccountsKeptExcept(b, b', {f, t});
    assert b'.accounts[f] == b.accounts[f].(balance := b'.accounts[f].balance);
    assert b'.accounts[t] == b.accounts[t].(balance := b'.accounts[t].balance);
    RereadListing(b, b', req.customer, accs, {f, t});
    TwoBalancesMoved(b, b', req.customer, accs, f, t);
  }
}
