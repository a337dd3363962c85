/** The monthly trend of new against repeat buyers: every transaction is
    tagged by whether it happened at its customer's first purchase timestamp,
    and the tagged transactions are grouped by calendar month and tag. */
module BuyerTrend {
  import opened Records
  import opened Seqs
  import opened Aggregation
  import opened Calendar

  datatype BuyerType = NewCustomer | RepeatCustomer

  /** The BuyerType column's labels. */
  function BuyerTypeLabel(b: BuyerType): string {
    match b
    case NewCustomer => "New Customer"
    case RepeatCustomer => "Repeat Customer"
  }

  /** "New Customer" sorts before "Repeat Customer", so within a month the
      groupby lists new buyers first, as the trend keys do. */
  lemma BuyerTypeLabelsAscending()
    ensures LexLess(BuyerTypeLabel(NewCustomer), BuyerTypeLabel(RepeatCustomer))
    ensures !LexLess(BuyerTypeLabel(RepeatCustomer), BuyerTypeLabel(NewCustomer))
  {
    LexLessByHead("New Customer", "Repeat Customer");
  }

  /** A customer's first purchase timestamp. */
  function FirstPurchaseOf(txs: seq<Transaction>, c: int): (d: int)
    requires HasCustomer(txs, c)
    ensures exists t :: t in txs && t.customerId == c && t.invoiceDate == d
    ensures forall t :: t in txs && t.customerId == c ==> d <= t.invoiceDate
  {
    assert TxsOf(txs, c) != [] by {
      var t :| t in txs && t.customerId == c;
      assert t in TxsOf(txs, c);
    }
    FirstPurchase(TxsOf(txs, c))
  }

  /** A transaction with its customer's first purchase timestamp merged in
      and its buyer type. */
  datatype TaggedTx = TaggedTx(tx: Transaction, firstPurchaseDate: int, isFirstPurchase: bool, buyerType: BuyerType)

  /** Tags a transaction given its customer's first purchase timestamp. */
  function TagWith(t: Transaction, first: int): (x: TaggedTx)
    ensures x.tx == t && x.firstPurchaseDate == first
    ensures x.buyerType == NewCustomer <==> x.isFirstPurchase
    ensures x.isFirstPurchase <==> t.invoiceDate == first
  {
    var isFirst := t.invoiceDate == first;
    TaggedTx(t, first, isFirst, if isFirst then NewCustomer else RepeatCustomer)
  }

  /** Tags a transaction of the table. */
  function Tag(txs: seq<Transaction>, t: Transaction): (x: TaggedTx)
    requires t in txs
    ensures x.tx == t
    ensures x.buyerType == NewCustomer <==> t.invoiceDate == FirstPurchaseOf(txs, t.customerId)
  {
    assert HasCustomer(txs, t.customerId);
    TagWith(t, FirstPurchaseOf(txs, t.customerId))
  }

  /** The merged and tagged table: the merge keeps the table's row order, as
      every customer has a first purchase. */
  function TagAll(txs: seq<Transaction>): (tagged: seq<TaggedTx>)
    ensures |tagged| == |txs|
    ensures forall i :: 0 <= i < |txs| ==> tagged[i] == Tag(txs, txs[i])
  {
    seq(|txs|, i requires 0 <= i < |txs| => Tag(txs, txs[i]))
  }

  /** The table's keys are the customers of the first `i` rows. */
  ghost predicate KeysSoFar(txs: seq<Transaction>, i: int, first: map<int, int>)
    requires 0 <= i <= |txs|
  {
    forall c :: c in first <==> exists j :: 0 <= j < i && txs[j].customerId == c
  }

  /** Each entry is the timestamp of one of the first `i` rows of its customer. */
  ghost predicate AttainedSoFar(txs: seq<Transaction>, i: int, first: map<int, int>)
    requires 0 <= i <= |txs|
  {
    forall c :: c in first ==>
      exists j :: 0 <= j < i && txs[j].customerId == c && txs[j].invoiceDate == first[c]
  }

  /** No entry is later than any of the first `i` rows of its customer. */
  ghost predicate BoundSoFar(txs: seq<Transaction>, i: int, first: map<int, int>)
    requires 0 <= i <= |txs|
  {
    forall j :: 0 <= j < i && txs[j].customerId in first ==>
      first[txs[j].customerId] <= txs[j].invoiceDate
  }

  /** `first[c]` is the earliest timestamp among the first `i` rows of
      customer `c`, for every customer those rows hold. */
  ghost predicate EarliestSoFar(txs: seq<Transaction>, i: int, first: map<int, int>)
    requires 0 <= i <= |txs|
  {
    KeysSoFar(txs, i, first) && AttainedSoFar(txs, i, first) && BoundSoFar(txs, i, first)
  }

  /** The running minimum after taking row `i` into account. */
  function TakeRow(first: map<int, int>, t: Transaction): map<int, int> {
    if t.customerId !in first || t.invoiceDate < first[t.customerId]
    then first[t.customerId := t.invoiceDate] else first
  }

  lemma KeysStep(txs: seq<Transaction>, i: int, before: map<int, int>)
    requires 0 <= i < |txs| && KeysSoFar(txs, i, before)
    ensures KeysSoFar(txs, i + 1, TakeRow(before, txs[i]))
  {
    var after, c0 := TakeRow(before, txs[i]), txs[i].customerId;
    forall c | c in after
      ensures exists j :: 0 <= j < i + 1 && txs[j].customerId == c
    {
      if c != c0 {
        var j :| 0 <= j < i && txs[j].customerId == c;
      }
    }
  }

  lemma AttainedStep(txs: seq<Transaction>, i: int, before: map<int, int>)
    requires 0 <= i < |txs| && AttainedSoFar(txs, i, before)
    ensures AttainedSoFar(txs, i + 1, TakeRow(before, txs[i]))
  {
    var after, c0 := TakeRow(before, txs[i]), txs[i].customerId;
    forall c | c in after
      ensures exists j :: 0 <= j < i + 1 && txs[j].customerId == c && txs[j].invoiceDate == after[c]
    {
      if c != c0 || after == before {
        var j :| 0 <= j < i && txs[j].customerId == c && txs[j].invoiceDate == before[c];
      } else {
        assert txs[i].invoiceDate == after[c];
      }
    }
  }

  lemma BoundStep(txs: seq<Transaction>, i: int, before: map<int, int>)
    requires 0 <= i < |txs| && KeysSoFar(txs, i, before) && BoundSoFar(txs, i, before)
    ensures BoundSoFar(txs, i + 1, TakeRow(before, txs[i]))
  {
    var after, c0 := TakeRow(before, txs[i]), txs[i].customerId;
    forall j | 0 <= j < i + 1 && txs[j].customerId in after
      ensures after[txs[j].customerId] <= txs[j].invoiceDate
    {
      if j < i && txs[j].customerId == c0 && c0 in before {
        assert before[c0] <= txs[j].invoiceDate;
      }
    }
  }

  /** Once every row is taken into account, the table holds each customer's
      first purchase timestamp and nothing else. */
  lemma EarliestComplete(txs: seq<Transaction>, first: map<int, int>)
    requires EarliestSoFar(txs, |txs|, first)
    ensures forall c :: c in first <==> HasCustomer(txs, c)
    ensures forall c :: c in first ==> first[c] == FirstPurchaseOf(txs, c)
  {
    forall c | HasCustomer(txs, c)
      ensures c in first
    {
      var t :| t in txs && t.customerId == c;
      var j :| 0 <= j < |txs| && txs[j] == t;
    }
    forall c | c in first
      ensures HasCustomer(txs, c) && first[c] == FirstPurchaseOf(txs, c)
    {
      var j :| 0 <= j < |txs| && txs[j].customerId == c && txs[j].invoiceDate == first[c];
      assert txs[j] in txs;
      var t :| t in txs && t.customerId == c && t.invoiceDate == FirstPurchaseOf(txs, c);
      var k :| 0 <= k < |txs| && txs[k] == t;
    }
  }

  /** The per-customer minimum of the timestamps, as a table keyed by
      Customer ID. */
  method FirstPurchaseTable(txs: seq<Transaction>) returns (first: map<int, int>)
    ensures forall c :: c in first <==> HasCustomer(txs, c)
    ensures forall c :: c in first ==> first[c] == FirstPurchaseOf(txs, c)
  {
    first := map[];
    for i := 0 to |txs|
      invariant EarliestSoFar(txs, i, first)
    {
      var t := txs[i];
      KeysStep(txs, i, first);
      AttainedStep(txs, i, first);
      BoundStep(txs, i, first);
      if t.customerId !in first || t.invoiceDate < first[t.customerId] {
        first := first[t.customerId := t.invoiceDate];
      }
    }
    EarliestComplete(txs, first);
  }

  /** Merges the first purchase timestamps into the table and adds the
      IsFirstPurchase and BuyerType columns. */
  method TagTransactions(txs: seq<Transaction>) returns (tagged: seq<TaggedTx>)
    ensures tagged == TagAll(txs)
  {
    var first := FirstPurchaseTable(txs);
    tagged := [];
    for i := 0 to |txs|
      invariant tagged == TagAll(txs)[..i]
    {
      var t := txs[i];
      assert HasCustomer(txs, t.customerId) by { assert t in txs; }
      var d := first[t.customerId];
      assert d == FirstPurchaseOf(txs, t.customerId);
      assert TagAll(txs)[i] == TagWith(t, d);
      PrefixSnoc(TagAll(txs), i);
      tagged := tagged + [TagWith(t, d)];
    }
  }

  /** A transaction is tagged New exactly when no transaction of the same
      customer is earlier. */
  lemma NewExactlyWhenEarliest(txs: seq<Transaction>, i: int)
    requires 0 <= i < |txs|
    ensures TagAll(txs)[i].buyerType == NewCustomer <==>
              forall t :: t in txs && t.customerId == txs[i].customerId ==> txs[i].invoiceDate <= t.invoiceDate
  {
    var c := txs[i].customerId;
    assert HasCustomer(txs, c);
    var u :| u in txs && u.customerId == c && u.invoiceDate == FirstPurchaseOf(txs, c);
  }

  /** Every customer has at least one New transaction: one at its first
      purchase timestamp (several, when they share it). */
  lemma EveryCustomerHasNewTransaction(txs: seq<Transaction>, c: int)
    requires HasCustomer(txs, c)
    ensures exists i :: 0 <= i < |txs| && txs[i].customerId == c && TagAll(txs)[i].buyerType == NewCustomer
  {
    var t :| t in txs && t.customerId == c && t.invoiceDate == FirstPurchaseOf(txs, c);
    var i :| 0 <= i < |txs| && txs[i] == t;
    assert TagAll(txs)[i] == Tag(txs, t);
  }

  /** Rows of one customer at one timestamp get the same tag, so a first
      purchase spread over several lines (or invoices) is New on every one. */
  lemma SameTimestampSameType(txs: seq<Transaction>, i: int, j: int)
    requires 0 <= i < |txs| && 0 <= j < |txs|
    requires txs[i].customerId == txs[j].customerId && txs[i].invoiceDate == txs[j].invoiceDate
    ensures TagAll(txs)[i].buyerType == TagAll(txs)[j].buyerType
  {
    assert TagAll(txs)[i] == Tag(txs, txs[i]);
    assert TagAll(txs)[j] == Tag(txs, txs[j]);
  }

  /** A customer's New transactions fall in its earliest month: no
      transaction of the customer is in an earlier month. */
  lemma NewInEarliestMonth(txs: seq<Transaction>, i: int, j: int)
    requires 0 <= i < |txs| && 0 <= j < |txs|
    requires txs[i].customerId == txs[j].customerId
    requires TagAll(txs)[i].buyerType == NewCustomer
    ensures Month(TagAll(txs)[i]) <= Month(TagAll(txs)[j])
  {
    NewExactlyWhenEarliest(txs, i);
    assert txs[j] in txs;
    MonthIndexMonotone(txs[i].invoiceDate, txs[j].invoiceDate);
  }

  // ---------------------------------------------------------------------------
  // Monthly trend

  /** The monthly period of a transaction's timestamp. */
  function Month(x: TaggedTx): int {
    MonthIndex(DateOf(x.tx.invoiceDate))
  }

  /** One key for a (month, buyer type) pair: ascending keys run by month,
      and within a month New before Repeat, the order of the labels. */
  function TrendKey(x: TaggedTx): int {
    2 * Month(x) + (if x.buyerType == NewCustomer then 0 else 1)
  }

  function KeyMonth(key: int): int {
    key / 2
  }

  function KeyBuyerType(key: int): BuyerType {
    if key % 2 == 0 then NewCustomer else RepeatCustomer
  }

  /** The key determines the month and the buyer type. */
  lemma TrendKeyDecodes(x: TaggedTx)
    ensures KeyMonth(TrendKey(x)) == Month(x)
    ensures KeyBuyerType(TrendKey(x)) == x.buyerType
  {
  }

  /** Ascending keys run by month, and within a month New before Repeat. */
  lemma KeyOrder(k1: int, k2: int)
    requires k1 < k2
    ensures || KeyMonth(k1) < KeyMonth(k2)
            || (KeyMonth(k1) == KeyMonth(k2) && KeyBuyerType(k1) == NewCustomer && KeyBuyerType(k2) == RepeatCustomer)
  {
  }

  /** Two transactions share a key exactly when they share month and type. */
  lemma TrendKeyInjective(x: TaggedTx, y: TaggedTx)
    ensures TrendKey(x) == TrendKey(y) <==> Month(x) == Month(y) && x.buyerType == y.buyerType
  {
    TrendKeyDecodes(x);
    TrendKeyDecodes(y);
  }

  function TaggedAmount(x: TaggedTx): int {
    x.tx.totalAmount
  }

  function Untagged(group: seq<TaggedTx>): (ts: seq<Transaction>)
    ensures |ts| == |group|
    ensures forall i :: 0 <= i < |group| ==> ts[i] == group[i].tx
  {
    seq(|group|, i requires 0 <= i < |group| => group[i].tx)
  }

  /** The customers and the invoices of a group, tagged or not. */
  lemma UntaggedColumns(group: seq<TaggedTx>)
    ensures Customers(Untagged(group)) == set x | x in group :: x.tx.customerId
    ensures Invoices(Untagged(group)) == set x | x in group :: x.tx.invoice
  {
    var ts := Untagged(group);
    forall t | t in ts
      ensures exists x :: x in group && x.tx == t
    {
      var i :| 0 <= i < |ts| && ts[i] == t;
      assert group[i] in group;
    }
    forall x | x in group
      ensures x.tx in ts
    {
      var i :| 0 <= i < |group| && group[i] == x;
      assert ts[i] == x.tx;
    }
  }

  /** A row of the monthly trend. */
  datatype TrendRow = TrendRow(yearMonth: int, buyerType: BuyerType, uniqueCustomers: int, revenue: int, orders: int)

  function TrendRevenue(r: TrendRow): int {
    r.revenue
  }

  /** Some tagged transaction falls in the group of `key`. */
  predicate HasKey(tagged: seq<TaggedTx>, key: int) {
    exists x :: x in tagged && TrendKey(x) == key
  }

  /** The row of one (month, buyer type) group that occurs. */
  function TrendCell(tagged: seq<TaggedTx>, key: int): (r: TrendRow)
    requires HasKey(tagged, key)
    ensures r.yearMonth == KeyMonth(key) && r.buyerType == KeyBuyerType(key)
    ensures 1 <= r.uniqueCustomers <= |Select(tagged, TrendKey, key)|
    ensures 1 <= r.orders <= |Select(tagged, TrendKey, key)|
    ensures r.revenue == Sum(Select(tagged, TrendKey, key), TaggedAmount)
    ensures r.uniqueCustomers == |set x | x in Select(tagged, TrendKey, key) :: x.tx.customerId|
    ensures r.orders == |set x | x in Select(tagged, TrendKey, key) :: x.tx.invoice|
  {
    var group := Select(tagged, TrendKey, key);
    var x :| x in tagged && TrendKey(x) == key;
    assert x in group;
    var ts := Untagged(group);
    UntaggedColumns(group);
    TrendRow(KeyMonth(key), KeyBuyerType(key), |Customers(ts)|, Sum(group, TaggedAmount), |Invoices(ts)|)
  }

  /** The rows of the given keys, in their order. */
  function TrendRows(tagged: seq<TaggedTx>, keys: seq<int>): (rows: seq<TrendRow>)
    requires forall k :: k in keys ==> HasKey(tagged, k)
    ensures |rows| == |keys|
    ensures forall i :: 0 <= i < |keys| ==> rows[i] == TrendCell(tagged, keys[i])
  {
    if keys == [] then []
    else
      var m := |keys| - 1;
      assert keys == keys[..m] + [keys[m]];
      var rest := TrendRows(tagged, keys[..m]);
      rest + [TrendCell(tagged, keys[m])]
  }

  function KeyColumn(tagged: seq<TaggedTx>): (keys: seq<int>)
    ensures forall k :: k in keys <==> HasKey(tagged, k)
  {
    var keys := seq(|tagged|, i requires 0 <= i < |tagged| => TrendKey(tagged[i]));
    assert forall i :: 0 <= i < |tagged| ==> keys[i] == TrendKey(tagged[i]);
    keys
  }

  /** The groups in the order the groupby emits them. */
  function TrendKeys(tagged: seq<TaggedTx>): (keys: seq<int>)
    ensures StrictlyIncreasing(keys)
    ensures forall k :: k in keys <==> HasKey(tagged, k)
  {
    SortedKeys(KeyColumn(tagged))
  }

  /** The monthly trend: one row per (month, buyer type) that occurs, by month
      and New before Repeat. */
  function MonthlyTrend(tagged: seq<TaggedTx>): (rows: seq<TrendRow>)
    ensures |rows| == |TrendKeys(tagged)|
    ensures forall i :: 0 <= i < |rows| ==> rows[i] == TrendCell(tagged, TrendKeys(tagged)[i])
  {
    TrendRows(tagged, TrendKeys(tagged))
  }

  /** Rows come in (month, buyer type) order, each pair at most once. */
  lemma MonthlyTrendOrdered(tagged: seq<TaggedTx>, i: int, j: int)
    requires 0 <= i < j < |MonthlyTrend(tagged)|
    ensures var rows := MonthlyTrend(tagged);
            || rows[i].yearMonth < rows[j].yearMonth
            || (rows[i].yearMonth == rows[j].yearMonth
                && rows[i].buyerType == NewCustomer && rows[j].buyerType == RepeatCustomer)
  {
    var keys := TrendKeys(tagged);
    KeyOrder(keys[i], keys[j]);
  }

  lemma {:induction false} TrendRowsRevenue(tagged: seq<TaggedTx>, keys: seq<int>)
    requires forall k :: k in keys ==> HasKey(tagged, k)
    ensures Sum(TrendRows(tagged, keys), TrendRevenue) == GroupTotals(keys, tagged, TrendKey, TaggedAmount)
  {
    if keys != [] {
      var m := |keys| - 1;
      var rows := TrendRows(tagged, keys);
      TrendRowsRevenue(tagged, keys[..m]);
      assert rows[..m] == TrendRows(tagged, keys[..m]);
      assert rows == rows[..m] + [rows[m]];
      SumSnoc(rows[..m], rows[m], TrendRevenue);
    }
  }

  /** Each row counts exactly the transactions of its month and buyer type. */
  lemma TrendCellGroup(tagged: seq<TaggedTx>, key: int, x: TaggedTx)
    requires HasKey(tagged, key)
    ensures x in Select(tagged, TrendKey, key) <==>
              x in tagged && Month(x) == TrendCell(tagged, key).yearMonth
              && x.buyerType == TrendCell(tagged, key).buyerType
  {
    var y :| y in tagged && TrendKey(y) == key;
    var r := TrendCell(tagged, key);
    TrendKeyDecodes(y);
    assert r.yearMonth == Month(y) && r.buyerType == y.buyerType;
    TrendKeyInjective(x, y);
  }

  /** Tagging changes no amount. */
  lemma TaggedRevenue(txs: seq<Transaction>)
    ensures Sum(TagAll(txs), TaggedAmount) == Sum(txs, AmountOf)
  {
    var tagged := TagAll(txs);
    forall i | 0 <= i < |txs|
      ensures TaggedAmount(tagged[i]) == AmountOf(txs[i])
    {
      assert tagged[i].tx == txs[i];
    }
    SumPointwise(tagged, TaggedAmount, txs, AmountOf);
  }

  /** Every tagged transaction falls in exactly one group of the trend. */
  lemma TrendKeysPartition(tagged: seq<TaggedTx>)
    ensures Distinct(TrendKeys(tagged))
    ensures forall x :: x in tagged ==> TrendKey(x) in TrendKeys(tagged)
  {
    var keys := TrendKeys(tagged);
    forall x | x in tagged
      ensures TrendKey(x) in keys
    {
      assert HasKey(tagged, TrendKey(x));
    }
  }

  /** The trend splits the revenue: its rows add up to the revenue of all
      transactions, each counted in exactly one (month, buyer type) row. */
  lemma MonthlyTrendRevenue(txs: seq<Transaction>)
    ensures Sum(MonthlyTrend(TagAll(txs)), TrendRevenue) == Sum(txs, AmountOf)
  {
    var tagged := TagAll(txs);
    var keys := TrendKeys(tagged);
    TrendKeysPartition(tagged);
    TrendRowsRevenue(tagged, keys);
    PartitionTotal(keys, tagged, TrendKey, TaggedAmount);
    TaggedRevenue(txs);
  }
}
