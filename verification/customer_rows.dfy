/**
 * The administrator's customer list: the API flattens each customer into one row per
 * account (one placeholder row for a customer without accounts), and the restrictions
 * page groups the rows back by customer id and sums up each group's account statuses.
 */
module CustomerRows {
  import opened Results
  import opened Bank
  import opened Seqs
  import AccountView
  import Restrictions

  /** The placeholder the API writes for a customer without accounts. */
  const NA := "N/A"

  function TypeName(k: AccountType): string {
    match k
    case Current => "CURRENT"
    case Saving => "SAVING"
  }

  function StatusName(s: AccountStatus): string {
    match s
    case Pending => "PENDING"
    case Active => "ACTIVE"
    case Suspended => "SUSPENDED"
    case Closed => "CLOSED"
  }

  /** A customer with its accounts, as the listing query includes them. */
  datatype Listed = Listed(customer: Customer, accounts: seq<Account>)

  /** One row of the API's answer. */
  datatype Row = Row(
    id: CustomerNumber,
    accountNumber: string,
    accountType: string,
    accountStatus: string,
    balance: Money,
    isRestricted: bool,
    restrictionType: Option<RestrictionKind>)

  /** The account columns the page keeps. */
  datatype Cells = Cells(accountNumber: string, accountType: string, status: string, balance: Money)

  /** A customer as the page rebuilds it. */
  datatype Group = Group(id: CustomerNumber, accounts: seq<Cells>)

  function AccountRow(c: Customer, a: Account): Row {
    Row(c.number, a.number, TypeName(a.kind), StatusName(a.status), a.balance, c.restriction.isRestricted, c.restriction.kind)
  }

  /** The rows of one customer. */
  function RowsOf(l: Listed): (r: seq<Row>)
    ensures |l.accounts| == 0 ==> |r| == 1 && r[0].accountNumber == NA && r[0].accountType == NA && r[0].accountStatus == NA && r[0].balance == 0
    ensures |l.accounts| > 0 ==> |r| == |l.accounts| && forall i :: 0 <= i < |r| ==> r[i].accountNumber == l.accounts[i].number
    ensures forall i :: 0 <= i < |r| ==>
      r[i].id == l.customer.number && r[i].isRestricted == l.customer.restriction.isRestricted && r[i].restrictionType == l.customer.restriction.kind
  {
    var c := l.customer;
    if |l.accounts| == 0 then [Row(c.number, NA, NA, NA, 0, c.restriction.isRestricted, c.restriction.kind)]
    else seq(|l.accounts|, i requires 0 <= i < |l.accounts| => AccountRow(c, l.accounts[i]))
  }

  /** The row names customer `l` and carries its restriction flags. */
  predicate RowOf(row: Row, l: Listed) {
    && row.id == l.customer.number
    && row.isRestricted == l.customer.restriction.isRestricted
    && row.restrictionType == l.customer.restriction.kind
  }

  /** The number of rows a customer list flattens to: one per account, and one for each customer without. */
  function RowCount(ls: seq<Listed>): nat
    decreases |ls|
  {
    if ls == [] then 0 else RowCount(ls[..|ls| - 1]) + (if |ls[|ls| - 1].accounts| == 0 then 1 else |ls[|ls| - 1].accounts|)
  }

  /** GET /api/admin/all-customers: the rows of the customers, in customer order. */
  function Flatten(ls: seq<Listed>): (r: seq<Row>)
    ensures |r| == RowCount(ls)
    ensures forall k :: 0 <= k < |r| ==> exists i :: 0 <= i < |ls| && RowOf(r[k], ls[i])
    decreases |ls|
  {
    if ls == [] then []
    else
      var init := Flatten(ls[..|ls| - 1]);
      var last := RowsOf(ls[|ls| - 1]);
      var r := init + last;
      forall k | 0 <= k < |r|
        ensures exists i :: 0 <= i < |ls| && RowOf(r[k], ls[i])
      {
        if k < |init| {
          var i :| 0 <= i < |ls[..|ls| - 1]| && RowOf(init[k], ls[..|ls| - 1][i]);
          assert ls[i] == ls[..|ls| - 1][i];
        } else {
          assert r[k] == last[k - |init|];
          assert RowOf(r[k], ls[|ls| - 1]);
        }
      }
      r
  }

  function Ids(gs: seq<Group>): (r: seq<CustomerNumber>)
    ensures |r| == |gs| && forall i :: 0 <= i < |gs| ==> r[i] == gs[i].id
  {
    Project(gs, (g: Group) => g.id)
  }

  function RowIds(rows: seq<Row>): (r: seq<CustomerNumber>)
    ensures |r| == |rows| && forall i :: 0 <= i < |rows| ==> r[i] == rows[i].id
  {
    Project(rows, (row: Row) => row.id)
  }

  /** The position of the group with `id` (Map.get). */
  function Find(gs: seq<Group>, id: CustomerNumber): (r: Option<nat>)
    ensures r.Some? ==> r.value < |gs| && gs[r.value].id == id
    ensures r.None? <==> id !in Ids(gs)
    decreases |gs|
  {
    if gs == [] then None
    else if gs[|gs| - 1].id == id then Some(|gs| - 1)
    else
      var r := Find(gs[..|gs| - 1], id);
      assert Ids(gs) == Ids(gs[..|gs| - 1]) + [gs[|gs| - 1].id];
      r
  }

  /** The account a row contributes: none for the placeholder. */
  function CellsOfRow(row: Row): seq<Cells> {
    if row.accountNumber != NA then [Cells(row.accountNumber, row.accountType, row.accountStatus, row.balance)] else []
  }

  /** One step of the page's forEach: open a group for a new id, then add the row's account to it. */
  function Add(gs: seq<Group>, row: Row): (r: seq<Group>)
    ensures Ids(r) == if row.id in Ids(gs) then Ids(gs) else Ids(gs) + [row.id]
  {
    match Find(gs, row.id)
    case None => gs + [Group(row.id, CellsOfRow(row))]
    case Some(i) =>
      var r := gs[i := gs[i].(accounts := gs[i].accounts + CellsOfRow(row))];
      assert Ids(r) == Ids(gs);
      r
  }

  /** Adding `rows` in order to the groups `gs`. */
  function RegroupOnto(gs: seq<Group>, rows: seq<Row>): seq<Group>
    decreases |rows|
  {
    if rows == [] then gs else Add(RegroupOnto(gs, rows[..|rows| - 1]), rows[|rows| - 1])
  }

  /** The grouping in fetchCustomers: one group per distinct id, in order of first appearance. */
  function Regroup(rows: seq<Row>): (r: seq<Group>)
    ensures Ids(r) == Uniq(RowIds(rows))
    ensures Distinct(Ids(r))
  {
    RegroupIds(rows);
    RegroupOnto([], rows)
  }

  lemma {:induction false} RegroupIds(rows: seq<Row>)
    ensures Ids(RegroupOnto([], rows)) == Uniq(RowIds(rows))
    decreases |rows|
  {
    if rows != [] {
      var init := rows[..|rows| - 1];
      RegroupIds(init);
      assert RowIds(rows)[..|rows| - 1] == RowIds(init);
    }
  }

  /** Grouping `xs + ys` is grouping `ys` onto the groups of `xs`. */
  lemma {:induction false} RegroupOntoAppend(gs: seq<Group>, xs: seq<Row>, ys: seq<Row>)
    ensures RegroupOnto(gs, xs + ys) == RegroupOnto(RegroupOnto(gs, xs), ys)
    decreases |ys|
  {
    if ys == [] {
      assert xs + ys == xs;
    } else {
      assert (xs + ys)[..|xs + ys| - 1] == xs + ys[..|ys| - 1];
      RegroupOntoAppend(gs, xs, ys[..|ys| - 1]);
    }
  }

  /** The page's account cells for a list of accounts. */
  function CellsOf(accs: seq<Account>): (r: seq<Cells>)
    ensures |r| == |accs| && forall i :: 0 <= i < |accs| ==> r[i].accountNumber == accs[i].number && r[i].status == StatusName(accs[i].status)
  {
    seq(|accs|, i requires 0 <= i < |accs| => Cells(accs[i].number, TypeName(accs[i].kind), StatusName(accs[i].status), accs[i].balance))
  }

  /** No account is numbered like the placeholder. */
  predicate RealNumbers(accs: seq<Account>) {
    forall i :: 0 <= i < |accs| ==> accs[i].number != NA
  }

  /** The rows of a customer whose id is new open its group and fill it with all its accounts. */
  lemma {:induction false} RegroupOneCustomer(gs: seq<Group>, l: Listed)
    requires l.customer.number !in Ids(gs) && RealNumbers(l.accounts)
    ensures RegroupOnto(gs, RowsOf(l)) == gs + [Group(l.customer.number, CellsOf(l.accounts))]
  {
    var rows := RowsOf(l);
    var id := l.customer.number;
    if |l.accounts| == 0 {
      assert rows[..0] == [];
    } else {
      RegroupPrefix(gs, l, |rows|);
      assert rows[..|rows|] == rows;
      assert l.accounts[..|rows|] == l.accounts;
    }
  }

  /** The first row with a new id opens a group at the end. */
  lemma AddNew(gs: seq<Group>, row: Row)
    requires row.id !in Ids(gs)
    ensures Add(gs, row) == gs + [Group(row.id, CellsOfRow(row))]
  {
  }

  /** A row whose id owns the last group, and no other, extends that group. */
  lemma AddToLast(gs: seq<Group>, cells: seq<Cells>, row: Row)
    requires row.id !in Ids(gs)
    ensures Add(gs + [Group(row.id, cells)], row) == gs + [Group(row.id, cells + CellsOfRow(row))]
  {
    var before := gs + [Group(row.id, cells)];
    assert before[..|before| - 1] == gs;
    assert Find(before, row.id) == Some(|gs|);
  }

  /** An account row contributes exactly that account's cells. */
  lemma CellsOfSnoc(c: Customer, accs: seq<Account>, m: nat)
    requires 1 <= m <= |accs| && RealNumbers(accs)
    ensures CellsOf(accs[..m]) == CellsOf(accs[..m - 1]) + CellsOfRow(AccountRow(c, accs[m - 1]))
  {
  }

  lemma {:induction false} RegroupPrefix(gs: seq<Group>, l: Listed, m: nat)
    requires l.customer.number !in Ids(gs) && RealNumbers(l.accounts)
    requires 1 <= m <= |l.accounts|
    ensures RegroupOnto(gs, RowsOf(l)[..m]) == gs + [Group(l.customer.number, CellsOf(l.accounts[..m]))]
    decreases m
  {
    var rows := RowsOf(l);
    var id := l.customer.number;
    var row := rows[m - 1];
    assert row == AccountRow(l.customer, l.accounts[m - 1]);
    assert RegroupOnto(gs, rows[..m]) == Add(RegroupOnto(gs, rows[..m - 1]), row) by {
      assert rows[..m][..m - 1] == rows[..m - 1];
      assert rows[..m][m - 1] == row;
    }
    CellsOfSnoc(l.customer, l.accounts, m);
    if m == 1 {
      assert rows[..0] == [];
      assert RegroupOnto(gs, rows[..0]) == gs;
      assert l.accounts[..0] == [];
      assert CellsOf(l.accounts[..0]) == [];
      assert [] + CellsOfRow(row) == CellsOfRow(row);
      AddNew(gs, row);
    } else {
      RegroupPrefix(gs, l, m - 1);
      AddToLast(gs, CellsOf(l.accounts[..m - 1]), row);
    }
  }

  /** The page's view of a customer list: each customer's id and its account cells. */
  function Groups(ls: seq<Listed>): (r: seq<Group>)
    ensures |r| == |ls| && forall i :: 0 <= i < |ls| ==> r[i] == Group(ls[i].customer.number, CellsOf(ls[i].accounts))
  {
    seq(|ls|, i requires 0 <= i < |ls| => Group(ls[i].customer.number, CellsOf(ls[i].accounts)))
  }

  function CustomerIds(ls: seq<Listed>): seq<CustomerNumber> {
    seq(|ls|, i requires 0 <= i < |ls| => ls[i].customer.number)
  }

  /**
   * Regrouping the flattened rows gives back every customer with its account list, in
   * order, as long as the customer ids are distinct and no account is numbered "N/A".
   */
  lemma {:induction false} RegroupFlatten(ls: seq<Listed>)
    requires Distinct(CustomerIds(ls))
    requires forall i :: 0 <= i < |ls| ==> RealNumbers(ls[i].accounts)
    ensures Regroup(Flatten(ls)) == Groups(ls)
  {
    RegroupOntoFlatten(ls);
  }

  lemma {:induction false} RegroupOntoFlatten(ls: seq<Listed>)
    requires Distinct(CustomerIds(ls))
    requires forall i :: 0 <= i < |ls| ==> RealNumbers(ls[i].accounts)
    ensures RegroupOnto([], Flatten(ls)) == Groups(ls)
    decreases |ls|
  {
    if ls == [] {
      assert Groups(ls) == [];
    } else {
      var init := ls[..|ls| - 1];
      var last := ls[|ls| - 1];
      assert Distinct(CustomerIds(init)) by {
        assert CustomerIds(init) == CustomerIds(ls)[..|ls| - 1];
      }
      assert RegroupOnto([], Flatten(init)) == Groups(init) by {
        RegroupOntoFlatten(init);
      }
      assert RegroupOnto([], Flatten(ls)) == RegroupOnto(Groups(init), RowsOf(last)) by {
        assert Flatten(ls) == Flatten(init) + RowsOf(last);
        RegroupOntoAppend([], Flatten(init), RowsOf(last));
      }
      assert last.customer.number !in Ids(Groups(init)) by {
        forall i | 0 <= i < |init| ensures Ids(Groups(init))[i] != last.customer.number {
          assert CustomerIds(ls)[i] != CustomerIds(ls)[|ls| - 1];
        }
      }
      RegroupOneCustomer(Groups(init), last);
      GroupsSnoc(ls);
    }
  }

  lemma GroupsSnoc(ls: seq<Listed>)
    requires ls != []
    ensures Groups(ls) == Groups(ls[..|ls| - 1]) + [Group(ls[|ls| - 1].customer.number, CellsOf(ls[|ls| - 1].accounts))]
  {
    var init := ls[..|ls| - 1];
    var rhs := Groups(init) + [Group(ls[|ls| - 1].customer.number, CellsOf(ls[|ls| - 1].accounts))];
    forall i | 0 <= i < |ls|
      ensures Groups(ls)[i] == rhs[i]
    {
      if i < |init| {
        assert init[i] == ls[i];
      }
    }
  }

  /** The summary getAccountStatus gives of a group's account statuses. */
  datatype Aggregate = AllActive | AllSuspended | SomePending | Mixed

  function AggregateStatus(statuses: seq<string>): (r: Aggregate)
    ensures r == AllActive <==> forall i :: 0 <= i < |statuses| ==> statuses[i] == "ACTIVE"
    ensures r == AllSuspended <==>
      |statuses| > 0 && forall i :: 0 <= i < |statuses| ==> statuses[i] == "SUSPENDED"
    ensures r == SomePending ==> exists i :: 0 <= i < |statuses| && statuses[i] == "PENDING"
    ensures r == Mixed ==> forall i :: 0 <= i < |statuses| ==> statuses[i] != "PENDING"
  {
    if forall i :: 0 <= i < |statuses| ==> statuses[i] == "ACTIVE" then
      assert |statuses| > 0 ==> statuses[0] != "SUSPENDED" by { assert "ACTIVE"[0] != "SUSPENDED"[0]; }
      AllActive
    else if forall i :: 0 <= i < |statuses| ==> statuses[i] == "SUSPENDED" then AllSuspended
    else if exists i :: 0 <= i < |statuses| && statuses[i] == "PENDING" then SomePending
    else Mixed
  }

  datatype Proposal = ProposeRestrict | ProposeUnrestrict

  /** The action the page offers on a customer: lift the restriction only when every account is SUSPENDED. */
  function Propose(g: Group): (r: Proposal)
    ensures r == ProposeUnrestrict <==> AggregateStatus(Statuses(g.accounts)) == AllSuspended
  {
    if AggregateStatus(Statuses(g.accounts)) == AllSuspended then ProposeUnrestrict else ProposeRestrict
  }

  function Statuses(cells: seq<Cells>): (r: seq<string>)
    ensures |r| == |cells| && forall i :: 0 <= i < |cells| ==> r[i] == cells[i].status
  {
    seq(|cells|, i requires 0 <= i < |cells| => cells[i].status)
  }

  /** After the toggle route restricts a customer with accounts, the page proposes to lift the restriction ... */
  lemma ProposalAfterRestrict(b: Bank, b': Bank, admin: Option<Restrictions.Admin>, req: Restrictions.ToggleRequest, now: Timestamp, accs: seq<Account>)
    requires Wf(b) && AccountView.Listing(b, req.customer, accs) && accs != []
    requires Restrictions.ToggleCustomer(b, admin, req, now) == Success(b') && req.action == "RESTRICT"
    ensures Propose(Group(req.customer, CellsOf(AccountView.Reread(b', accs)))) == ProposeUnrestrict
  {
    Restrictions.ToggleSetsStatuses(b, admin, req, now, b', Suspended);
    ListedStatuses(b, b', req.customer, accs, Suspended);
    UniformProposal(req.customer, CellsOf(AccountView.Reread(b', accs)), Suspended);
  }

  /** ... and after it lifts one, the page proposes to restrict again. */
  lemma ProposalAfterUnrestrict(b: Bank, b': Bank, admin: Option<Restrictions.Admin>, req: Restrictions.ToggleRequest, now: Timestamp, accs: seq<Account>)
    requires Wf(b) && AccountView.Listing(b, req.customer, accs)
    requires Restrictions.ToggleCustomer(b, admin, req, now) == Success(b') && req.action == "UNRESTRICT"
    ensures Propose(Group(req.customer, CellsOf(AccountView.Reread(b', accs)))) == ProposeRestrict
  {
    Restrictions.ToggleSetsStatuses(b, admin, req, now, b', Active);
    ListedStatuses(b, b', req.customer, accs, Active);
    UniformProposal(req.customer, CellsOf(AccountView.Reread(b', accs)), Active);
  }

  /** A group whose accounts all share one status: SUSPENDED (and some account) proposes UNRESTRICT, ACTIVE proposes RESTRICT. */
  lemma UniformProposal(id: CustomerNumber, cells: seq<Cells>, s: AccountStatus)
    requires var st := Statuses(cells); forall i :: 0 <= i < |st| ==> st[i] == StatusName(s)
    ensures s == Suspended && cells != [] ==> Propose(Group(id, cells)) == ProposeUnrestrict
    ensures s == Active ==> Propose(Group(id, cells)) == ProposeRestrict
  {
    assert "ACTIVE" != "SUSPENDED" by { assert "ACTIVE"[0] != "SUSPENDED"[0]; }
  }

  /** When every account of the customer has status `s`, so does every cell of its re-read listing. */
  lemma ListedStatuses(b: Bank, b': Bank, c: CustomerNumber, accs: seq<Account>, s: AccountStatus)
    requires AccountView.Listing(b, c, accs)
    requires forall n :: n in b.accounts ==> n in b'.accounts
    requires forall n :: n in b.accounts && b.accounts[n].owner == c ==> b'.accounts[n].status == s
    ensures var st := Statuses(CellsOf(AccountView.Reread(b', accs)));
            |st| == |accs| && forall i :: 0 <= i < |st| ==> st[i] == StatusName(s)
  {
    var st := Statuses(CellsOf(AccountView.Reread(b', accs)));
    forall i | 0 <= i < |accs|
      ensures st[i] == StatusName(s)
    {
      assert accs[i].number in b.accounts && b.accounts[accs[i].number].owner == c;
    }
  }

  /** A customer without accounts is always offered RESTRICT, restricted or not. */
  lemma NoAccountsProposeRestrict(c: Customer)
    ensures Propose(Regroup(RowsOf(Listed(c, [])))[0]) == ProposeRestrict
  {
    var rows := RowsOf(Listed(c, []));
    assert rows[..0] == [];
    assert CellsOfRow(rows[0]) == [];
    AddNew([], rows[0]);
    assert RegroupOnto([], rows) == [Group(c.number, [])];
  }
}
