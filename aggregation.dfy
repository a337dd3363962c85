/** The per-customer groupby of the cleaned transaction table: one row per
    distinct Customer ID, in ascending ID order, with the number of distinct
    invoices, the first and last purchase timestamps, the revenue sum and the
    line-item count of that customer's transactions. */
module Aggregation {
  import opened Records
  import opened Seqs

  /** One customer's transactions, in table order. */
  function TxsOf(txs: seq<Transaction>, c: int): (ts: seq<Transaction>)
    ensures forall t :: t in ts <==> t in txs && t.customerId == c
  {
    Select(txs, CustomerOf, c)
  }

  /** Some transaction belongs to customer `c`. */
  predicate HasCustomer(txs: seq<Transaction>, c: int) {
    exists t :: t in txs && t.customerId == c
  }

  /** The distinct invoice numbers of some transactions (an `nunique` count is
      the size of this set). */
  function Invoices(ts: seq<Transaction>): (r: set<string>)
    ensures forall i :: i in r <==> exists t :: t in ts && t.invoice == i
    ensures |r| <= |ts|
    ensures ts != [] ==> |r| >= 1
  {
    if ts == [] then {}
    else
      var n := |ts| - 1;
      assert ts == ts[..n] + [ts[n]];
      Invoices(ts[..n]) + {ts[n].invoice}
  }

  /** The distinct Customer IDs of some transactions. */
  function Customers(ts: seq<Transaction>): (r: set<int>)
    ensures forall c :: c in r <==> exists t :: t in ts && t.customerId == c
    ensures |r| <= |ts|
    ensures ts != [] ==> |r| >= 1
  {
    if ts == [] then {}
    else
      var n := |ts| - 1;
      assert ts == ts[..n] + [ts[n]];
      Customers(ts[..n]) + {ts[n].customerId}
  }

  /** The earliest timestamp of a non-empty group. */
  function FirstPurchase(ts: seq<Transaction>): (m: int)
    requires ts != []
    ensures exists t :: t in ts && t.invoiceDate == m
    ensures forall t :: t in ts ==> m <= t.invoiceDate
  {
    var n := |ts| - 1;
    assert ts == ts[..n] + [ts[n]];
    if n == 0 then ts[0].invoiceDate
    else
      var m := FirstPurchase(ts[..n]);
      if ts[n].invoiceDate < m then ts[n].invoiceDate else m
  }

  /** The latest timestamp of a non-empty group. */
  function LastPurchase(ts: seq<Transaction>): (m: int)
    requires ts != []
    ensures exists t :: t in ts && t.invoiceDate == m
    ensures forall t :: t in ts ==> t.invoiceDate <= m
  {
    var n := |ts| - 1;
    assert ts == ts[..n] + [ts[n]];
    if n == 0 then ts[0].invoiceDate
    else
      var m := LastPurchase(ts[..n]);
      if ts[n].invoiceDate > m then ts[n].invoiceDate else m
  }

  /** The Customer ID column. */
  function CustomerColumn(txs: seq<Transaction>): (ids: seq<int>)
    ensures |ids| == |txs|
    ensures forall c :: c in ids <==> HasCustomer(txs, c)
  {
    var ids := seq(|txs|, i requires 0 <= i < |txs| => txs[i].customerId);
    assert forall i :: 0 <= i < |txs| ==> ids[i] == txs[i].customerId;
    ids
  }

  /** The group keys in the order the groupby emits them: every Customer ID
      that occurs, once, ascending. */
  function CustomerIds(txs: seq<Transaction>): (ids: seq<int>)
    ensures StrictlyIncreasing(ids)
    ensures forall c :: c in ids <==> HasCustomer(txs, c)
  {
    SortedKeys(CustomerColumn(txs))
  }

  /** A row of `customer_orders` before any column is added to it. */
  datatype CustomerAggregate = CustomerAggregate(
    customerId: int,
    orderCount: int,
    firstPurchase: int,
    lastPurchase: int,
    totalRevenue: int,
    totalTransactions: int)

  function RevenueOf(a: CustomerAggregate): int {
    a.totalRevenue
  }

  function TransactionsOf(a: CustomerAggregate): int {
    a.totalTransactions
  }

  /** The aggregate row of a customer that occurs in the table. */
  function AggregateCustomer(txs: seq<Transaction>, c: int): (a: CustomerAggregate)
    requires HasCustomer(txs, c)
    ensures a.customerId == c
    ensures 1 <= a.orderCount <= a.totalTransactions
    ensures a.firstPurchase <= a.lastPurchase
    ensures forall t :: t in txs && t.customerId == c ==>
              a.firstPurchase <= t.invoiceDate <= a.lastPurchase
    ensures exists t :: t in txs && t.customerId == c && t.invoiceDate == a.firstPurchase
    ensures exists t :: t in txs && t.customerId == c && t.invoiceDate == a.lastPurchase
    ensures a.orderCount == |set t | t in txs && t.customerId == c :: t.invoice|
    ensures a.totalRevenue == Sum(Select(txs, CustomerOf, c), AmountOf)
    ensures a.totalTransactions == |Select(txs, CustomerOf, c)|
  {
    var ts := TxsOf(txs, c);
    assert ts != [] by {
      var t :| t in txs && t.customerId == c;
      assert t in ts;
    }
    assert Invoices(ts) == set t | t in txs && t.customerId == c :: t.invoice;
    CustomerAggregate(c, |Invoices(ts)|, FirstPurchase(ts), LastPurchase(ts),
                      Sum(ts, AmountOf), |ts|)
  }

  /** When every line amount is positive, so is every customer's TotalRevenue. */
  lemma PositiveRevenue(txs: seq<Transaction>, c: int)
    requires HasCustomer(txs, c)
    requires forall t :: t in txs ==> t.totalAmount > 0
    ensures AggregateCustomer(txs, c).totalRevenue > 0
  {
    var group := Select(txs, CustomerOf, c);
    var t :| t in txs && t.customerId == c;
    assert t in group;
    SumPositive(group, AmountOf);
  }

  /** The aggregate rows of the given keys, in their order. */
  function AggregateKeys(txs: seq<Transaction>, keys: seq<int>): (rows: seq<CustomerAggregate>)
    requires forall k :: k in keys ==> HasCustomer(txs, k)
    ensures |rows| == |keys|
    ensures forall i :: 0 <= i < |keys| ==> rows[i] == AggregateCustomer(txs, keys[i])
  {
    seq(|keys|, i requires 0 <= i < |keys| => AggregateCustomer(txs, keys[i]))
  }

  /** The `customer_orders` table: one row per distinct customer, ascending
      by Customer ID. */
  function Aggregate(txs: seq<Transaction>): (rows: seq<CustomerAggregate>)
    ensures |rows| == |CustomerIds(txs)|
    ensures forall i :: 0 <= i < |rows| ==> rows[i] == AggregateCustomer(txs, CustomerIds(txs)[i])
  {
    AggregateKeys(txs, CustomerIds(txs))
  }

  /** Exactly one row per customer that occurs: IDs ascending (hence
      distinct), and every occurring ID has a row. */
  lemma AggregateRows(txs: seq<Transaction>)
    ensures forall i, j :: 0 <= i < j < |Aggregate(txs)| ==>
              Aggregate(txs)[i].customerId < Aggregate(txs)[j].customerId
    ensures forall c :: (HasCustomer(txs, c)) <==>
              exists i :: 0 <= i < |Aggregate(txs)| && Aggregate(txs)[i].customerId == c
  {
    var ids := CustomerIds(txs);
    var rows := Aggregate(txs);
    AggregateIds(txs);
    forall c | HasCustomer(txs, c)
      ensures exists i :: 0 <= i < |rows| && rows[i].customerId == c
    {
      var i :| 0 <= i < |ids| && ids[i] == c;
      assert rows[i].customerId == c;
    }
    forall c | exists i :: 0 <= i < |rows| && rows[i].customerId == c
      ensures HasCustomer(txs, c)
    {
      var i :| 0 <= i < |rows| && rows[i].customerId == c;
      assert ids[i] in ids;
    }
  }

  /** Row `i` belongs to the `i`-th customer ID. */
  lemma AggregateIds(txs: seq<Transaction>)
    ensures forall i :: 0 <= i < |Aggregate(txs)| ==> Aggregate(txs)[i].customerId == CustomerIds(txs)[i]
  {
    forall i | 0 <= i < |Aggregate(txs)|
      ensures Aggregate(txs)[i].customerId == CustomerIds(txs)[i]
    {
      assert Aggregate(txs)[i] == AggregateCustomer(txs, CustomerIds(txs)[i]);
    }
  }

  lemma AggregateKeysPrefix(txs: seq<Transaction>, keys: seq<int>, m: int)
    requires forall k :: k in keys ==> HasCustomer(txs, k)
    requires 0 <= m <= |keys|
    ensures forall k :: k in keys[..m] ==> HasCustomer(txs, k)
    ensures AggregateKeys(txs, keys)[..m] == AggregateKeys(txs, keys[..m])
  {
    assert forall k :: k in keys[..m] ==> k in keys;
    var whole := AggregateKeys(txs, keys);
    var prefix := AggregateKeys(txs, keys[..m]);
    forall i | 0 <= i < m
      ensures whole[..m][i] == prefix[i]
    {
      assert keys[..m][i] == keys[i];
    }
  }

  /** The aggregate rows' revenues add up to the per-group revenue sums of
      the transactions. */
  lemma {:induction false} AggregateKeysRevenue(txs: seq<Transaction>, keys: seq<int>)
    requires forall k :: k in keys ==> HasCustomer(txs, k)
    ensures Sum(AggregateKeys(txs, keys), RevenueOf) == GroupTotals(keys, txs, CustomerOf, AmountOf)
  {
    if keys != [] {
      var m := |keys| - 1;
      var rows := AggregateKeys(txs, keys);
      AggregateKeysPrefix(txs, keys, m);
      AggregateKeysRevenue(txs, keys[..m]);
      LastSplit(rows);
      SumSnoc(rows[..m], rows[m], RevenueOf);
    }
  }

  /** The aggregate rows' line-item counts add up to the per-group sizes. */
  lemma {:induction false} AggregateKeysCount(txs: seq<Transaction>, keys: seq<int>)
    requires forall k :: k in keys ==> HasCustomer(txs, k)
    ensures Sum(AggregateKeys(txs, keys), TransactionsOf) == GroupTotals(keys, txs, CustomerOf, Unit)
  {
    if keys != [] {
      var m := |keys| - 1;
      var rows := AggregateKeys(txs, keys);
      AggregateKeysPrefix(txs, keys, m);
      AggregateKeysCount(txs, keys[..m]);
      LastSplit(rows);
      SumSnoc(rows[..m], rows[m], TransactionsOf);
      SumUnit(Select(txs, CustomerOf, keys[m]));
    }
  }

  /** Every transaction is counted for exactly one customer: the customers'
      revenues add up to the table's revenue, and their line-item counts to
      its length. */
  lemma AggregateTotals(txs: seq<Transaction>)
    ensures Sum(Aggregate(txs), RevenueOf) == Sum(txs, AmountOf)
    ensures Sum(Aggregate(txs), TransactionsOf) == |txs|
  {
    var ids := CustomerIds(txs);
    assert Distinct(ids) by {
      forall i, j | 0 <= i < |ids| && 0 <= j < |ids| && i != j
        ensures ids[i] != ids[j]
      {
        if i < j { assert ids[i] < ids[j]; } else { assert ids[j] < ids[i]; }
      }
    }
    forall t | t in txs
      ensures CustomerOf(t) in ids
    {
      assert exists u :: u in txs && u.customerId == t.customerId;
    }
    AggregateKeysRevenue(txs, ids);
    AggregateKeysCount(txs, ids);
    PartitionTotal(ids, txs, CustomerOf, AmountOf);
    PartitionTotal(ids, txs, CustomerOf, Unit);
    SumUnit(txs);
  }
}
