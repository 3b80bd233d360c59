/**
 * The customer's transaction lists: the transactions page and the dashboard both drop
 * repeated transactionIds, keeping the first occurrence; the dashboard shows at most
 * three of the first ten. The two pages classify credits differently.
 */
module History {
  import opened Results
  import opened Bank
  import opened Seqs

  function TxIds(xs: seq<Entry>): (r: seq<TxId>)
    ensures |r| == |xs| && forall i :: 0 <= i < |xs| ==> r[i] == xs[i].id
  {
    Project(xs, (e: Entry) => e.id)
  }

  /** Array.prototype.findIndex on the transactionId. */
  function FindIndex(xs: seq<Entry>, id: TxId): (r: Option<nat>)
    ensures r.Some? ==> r.value < |xs| && xs[r.value].id == id && forall j :: 0 <= j < r.value ==> xs[j].id != id
    ensures r.None? ==> forall j :: 0 <= j < |xs| ==> xs[j].id != id
    decreases |xs|
  {
    if xs == [] then None
    else if xs[0].id == id then Some(0)
    else
      var r := FindIndex(xs[1..], id);
      if r.Some? then Some(r.value + 1) else None
  }

  /** Position `i` holds the first entry with its id. */
  predicate FirstOfId(xs: seq<Entry>, i: nat)
    requires i < |xs|
  {
    FindIndex(xs, xs[i].id) == Some(i)
  }

  /** The filter over the first `n` positions: an entry stays when it is the first with its id. */
  function Keep(xs: seq<Entry>, n: nat): seq<Entry>
    requires n <= |xs|
  {
    if n == 0 then []
    else Keep(xs, n - 1) + (if FirstOfId(xs, n - 1) then [xs[n - 1]] else [])
  }

  /** The de-duplication of fetchTransactions. */
  function Dedup(xs: seq<Entry>): (r: seq<Entry>)
    ensures Distinct(TxIds(r))
    ensures TxIds(r) == Uniq(TxIds(xs))
    ensures forall e :: e in r ==> e in xs
    // the entry kept for an id is the first entry with that id
    ensures forall i :: 0 <= i < |r| ==> FirstOccurrence(xs, r[i])
  {
    KeepIds(xs, |xs|);
    KeepFrom(xs, |xs|);
    KeepFirst(xs, |xs|);
    assert TxIds(xs)[..|xs|] == TxIds(xs);
    assert xs[..|xs|] == xs;
    Keep(xs, |xs|)
  }

  /** The ids the filter keeps in a prefix are the first occurrences of the prefix's ids. */
  lemma {:induction false} KeepIds(xs: seq<Entry>, n: nat)
    requires n <= |xs|
    ensures TxIds(Keep(xs, n)) == Uniq(TxIds(xs)[..n])
    decreases n
  {
    if n > 0 {
      KeepIds(xs, n - 1);
      var ids := TxIds(xs);
      var id := xs[n - 1].id;
      assert ids[..n][..n - 1] == ids[..n - 1];
      assert FirstOfId(xs, n - 1) <==> id !in ids[..n - 1] by {
        if id in ids[..n - 1] {
          var j :| 0 <= j < n - 1 && ids[..n - 1][j] == id;
          assert xs[j].id == id;
        }
      }
      assert TxIds(Keep(xs, n)) == TxIds(Keep(xs, n - 1)) + (if FirstOfId(xs, n - 1) then [id] else []);
    }
  }

  /** `e` is the first entry of `xs` with its id. */
  predicate FirstOccurrence(xs: seq<Entry>, e: Entry) {
    var k := FindIndex(xs, e.id);
    k.Some? && xs[k.value] == e
  }

  /** Every entry the filter keeps is the first entry of the list with its id. */
  lemma {:induction false} KeepFirst(xs: seq<Entry>, n: nat)
    requires n <= |xs|
    ensures forall i :: 0 <= i < |Keep(xs, n)| ==> FirstOccurrence(xs, Keep(xs, n)[i])
    decreases n
  {
    if n > 0 {
      KeepFirst(xs, n - 1);
      var prev := Keep(xs, n - 1);
      var tail: seq<Entry> := if FirstOfId(xs, n - 1) then [xs[n - 1]] else [];
      assert Keep(xs, n) == prev + tail;
      forall i | 0 <= i < |Keep(xs, n)|
        ensures FirstOccurrence(xs, Keep(xs, n)[i])
      {
        if i < |prev| {
          assert Keep(xs, n)[i] == prev[i];
        } else {
          assert Keep(xs, n)[i] == xs[n - 1];
        }
      }
    }
  }

  lemma {:induction false} KeepFrom(xs: seq<Entry>, n: nat)
    requires n <= |xs|
    ensures forall e :: e in Keep(xs, n) ==> e in xs[..n]
    decreases n
  {
    if n > 0 {
      KeepFrom(xs, n - 1);
      assert xs[..n] == xs[..n - 1] + [xs[n - 1]];
    }
  }

  /** Filtering a prefix of the list keeps what filtering the whole list keeps in that prefix. */
  lemma {:induction false} KeepOfPrefix(xs: seq<Entry>, m: nat, n: nat)
    requires n <= m <= |xs|
    ensures Keep(xs[..m], n) == Keep(xs, n)
    decreases n
  {
    if n > 0 {
      assert Keep(xs[..m], n - 1) == Keep(xs, n - 1) by { KeepOfPrefix(xs, m, n - 1); }
      var id := xs[n - 1].id;
      var f, g := FindIndex(xs[..m], id), FindIndex(xs, id);
      assert f == g by {
        assert g.Some? by { assert xs[n - 1].id == id; }
        assert f.Some? by { assert xs[..m][n - 1].id == id; }
        assert xs[..m][g.value] == xs[g.value];
        assert xs[..m][f.value] == xs[f.value];
      }
      assert FirstOfId(xs[..m], n - 1) == FirstOfId(xs, n - 1);
    }
  }

  /** One more position only appends to the filter's output. */
  lemma KeepStep(xs: seq<Entry>, n: nat)
    requires 0 < n <= |xs|
    ensures |Keep(xs, n - 1)| <= |Keep(xs, n)| && Keep(xs, n)[..|Keep(xs, n - 1)|] == Keep(xs, n - 1)
  {
  }

  lemma PrefixTrans(a: seq<Entry>, b: seq<Entry>, c: seq<Entry>)
    requires |a| <= |b| <= |c| && b[..|a|] == a && c[..|b|] == b
    ensures c[..|a|] == a
  {
    assert c[..|a|] == c[..|b|][..|a|];
  }

  /** The filter's output over a shorter prefix is a prefix of its output over a longer one. */
  lemma {:induction false} KeepGrows(xs: seq<Entry>, m: nat, n: nat)
    requires m <= n <= |xs|
    ensures |Keep(xs, m)| <= |Keep(xs, n)| && Keep(xs, n)[..|Keep(xs, m)|] == Keep(xs, m)
    decreases n - m
  {
    if m < n {
      KeepGrows(xs, m, n - 1);
      KeepStep(xs, n);
      PrefixTrans(Keep(xs, m), Keep(xs, n - 1), Keep(xs, n));
    } else {
      assert Keep(xs, m)[..|Keep(xs, m)|] == Keep(xs, m);
    }
  }

  /** An entry with the position uniqueIndex it is rendered under. */
  datatype Indexed = Indexed(entry: Entry, uniqueIndex: nat)

  /** The transactions page's list: de-duplicated, then numbered. */
  function TransactionList(xs: seq<Entry>): (r: seq<Indexed>)
    ensures forall i :: 0 <= i < |r| ==> r[i].uniqueIndex == i
    ensures forall i, j :: 0 <= i < j < |r| ==> r[i].entry.id != r[j].entry.id
    // one row per distinct id, in order of first appearance, showing that id's first entry
    ensures |r| == |Uniq(TxIds(xs))|
    ensures forall i :: 0 <= i < |r| ==> r[i].entry.id == Uniq(TxIds(xs))[i] && FirstOccurrence(xs, r[i].entry)
    ensures |r| == |Dedup(xs)| && forall i :: 0 <= i < |r| ==> r[i].entry == Dedup(xs)[i]
  {
    var d := Dedup(xs);
    assert forall i, j :: 0 <= i < j < |d| ==> TxIds(d)[i] != TxIds(d)[j];
    seq(|d|, i requires 0 <= i < |d| => Indexed(d[i], i))
  }

  /** The dashboard's recent entries: de-duplicate the first ten, then keep three. */
  function Recent(xs: seq<Entry>): (r: seq<Entry>)
    ensures |r| <= 3
    ensures Distinct(TxIds(r))
    ensures forall e :: e in r ==> exists i :: 0 <= i < 10 && i < |xs| && xs[i] == e
    // three entries whenever the first ten hold at least three distinct ids, else all of them
    ensures var ids := Uniq(TxIds(if |xs| <= 10 then xs else xs[..10]));
            |r| == (if |ids| < 3 then |ids| else 3)
  {
    var firstTen := if |xs| <= 10 then xs else xs[..10];
    var d := Dedup(firstTen);
    var r := if |d| <= 3 then d else d[..3];
    assert TxIds(r) == TxIds(d)[..|r|];
    forall e | e in r
      ensures exists i :: 0 <= i < 10 && i < |xs| && xs[i] == e
    {
      assert e in d;
      var i :| 0 <= i < |firstTen| && firstTen[i] == e;
      assert xs[i] == e;
    }
    r
  }

  /** The dashboard shows the first (up to three) entries of the transactions page's list. */
  lemma RecentIsPrefixOfList(xs: seq<Entry>)
    ensures var list := Dedup(xs);
            |Recent(xs)| <= |list| && list[..|Recent(xs)|] == Recent(xs)
  {
    var m := if |xs| <= 10 then |xs| else 10;
    var firstTen := if |xs| <= 10 then xs else xs[..10];
    assert firstTen == xs[..m];
    assert Dedup(firstTen) == Keep(xs, m) by {
      KeepOfPrefix(xs, m, m);
      assert |firstTen| == m;
    }
    assert Dedup(xs) == Keep(xs, |xs|);
    KeepGrows(xs, m, |xs|);
  }

  /** How the transactions page decides credit: by type alone. */
  predicate ListedAsCredit(e: Entry) {
    e.kind == Credit || e.kind == Opening
  }

  /** The amount as the transactions page shows it: a sign and the magnitude. */
  datatype Shown = Shown(plus: bool, magnitude: nat)

  function ShowOnList(e: Entry): (r: Shown)
    ensures r.magnitude == if e.amount < 0 then -e.amount else e.amount
    ensures r.plus <==> e.kind in {Credit, Opening}
  {
    Shown(ListedAsCredit(e), if e.amount < 0 then -e.amount else e.amount)
  }

  /** How the dashboard decides credit: CREDIT, or a balance that went up. */
  predicate DashboardCredit(e: Entry) {
    e.kind == Credit || e.after > e.before
  }

  /**
   * For an entry that records its balance change and moves money in the direction its
   * sign says, the two pages agree exactly when the entry is not a TRANSFER leg.
   */
  lemma ClassificationsAgree(e: Entry)
    requires Balanced(e) && e.amount > 0
    ensures ListedAsCredit(e) == DashboardCredit(e) <==> e.kind != Transfer
  {
  }

  /** The incoming leg of an instant transfer is a credit on the dashboard but shows "-" on the transactions page. */
  lemma IncomingLegShownAsDebit(e: Entry)
    requires e.kind == Transfer && e.amount > 0 && Balanced(e)
    ensures DashboardCredit(e) && !ShowOnList(e).plus && ShowOnList(e).magnitude == e.amount
  {
  }
}
