/** The summaries drawn from the customer table: customers and revenue per
    order-count segment, per binary type and per RFM segment, and the repeat
    buyers with the days between their orders. */
module CustomerSummaries {
  import opened Seqs
  import opened Segments
  import opened CustomerAnalysis

  // ---------------------------------------------------------------------------
  // Group summaries

  /** A summary row: a group key, the customers in it and their revenue. */
  datatype GroupSummary<K> = GroupSummary(key: K, customerCount: int, totalRevenue: int)

  function GroupCount<K>(g: GroupSummary<K>): int {
    g.customerCount
  }

  function GroupRevenue<K>(g: GroupSummary<K>): int {
    g.totalRevenue
  }

  /** One summary row per key that has customers, in the order of `keys`:
      a groupby emits only the groups that occur, each with the number of
      its customers and the sum of their revenue. */
  function Summarize<K(==,!new)>(rows: seq<CustomerRow>, keyOf: CustomerRow -> K, keys: seq<K>): (s: seq<GroupSummary<K>>)
    ensures |s| <= |keys|
    ensures forall g :: g in s ==> g.key in keys && g.customerCount >= 1
    ensures forall g :: g in s ==>
              && g.customerCount == |Select(rows, keyOf, g.key)|
              && g.totalRevenue == Sum(Select(rows, keyOf, g.key), RowRevenue)
    ensures forall k :: k in keys && (exists c :: c in rows && keyOf(c) == k) ==>
              exists g :: g in s && g.key == k
  {
    if keys == [] then []
    else
      var m := |keys| - 1;
      var k := keys[m];
      var group := Select(rows, keyOf, k);
      var rest := Summarize(rows, keyOf, keys[..m]);
      assert forall j :: j in keys ==> j in keys[..m] || j == k by {
        assert keys == keys[..m] + [k];
      }
      if group == [] then rest
      else rest + [GroupSummary(k, |group|, Sum(group, RowRevenue))]
  }

  /** When every row's key is listed, every row's key has its summary row. */
  lemma SummaryCoversRows<K(!new)>(rows: seq<CustomerRow>, keyOf: CustomerRow -> K, keys: seq<K>)
    requires forall c :: c in rows ==> keyOf(c) in keys
    ensures var s := Summarize(rows, keyOf, keys);
            forall c :: c in rows ==> exists g :: g in s && g.key == keyOf(c)
  {
    var s := Summarize(rows, keyOf, keys);
    forall c | c in rows
      ensures exists g :: g in s && g.key == keyOf(c)
    {
      assert keyOf(c) in keys;
      assert exists c' :: c' in rows && keyOf(c') == keyOf(c);
    }
  }

  /** Over distinct keys, no two summary rows share a key. */
  lemma SummaryKeysDistinct<K(!new)>(rows: seq<CustomerRow>, keyOf: CustomerRow -> K, keys: seq<K>)
    requires Distinct(keys)
    ensures var s := Summarize(rows, keyOf, keys);
            forall i, j :: 0 <= i < j < |s| ==> s[i].key != s[j].key
  {
    var idx := SummarizeFollowsKeys(rows, keyOf, keys);
  }

  /** The summary rows come in the order of their keys: row `k` has key
      `keys[idx[k]]`, at increasing positions. */
  lemma {:induction false} SummarizeFollowsKeys<K(!new)>(rows: seq<CustomerRow>, keyOf: CustomerRow -> K, keys: seq<K>)
    returns (idx: seq<int>)
    ensures var s := Summarize(rows, keyOf, keys);
            && |idx| == |s|
            && (forall k :: 0 <= k < |idx| ==> 0 <= idx[k] < |keys| && s[k].key == keys[idx[k]])
            && (forall k, l :: 0 <= k < l < |idx| ==> idx[k] < idx[l])
  {
    if keys == [] {
      idx := [];
    } else {
      var m := |keys| - 1;
      var group := Select(rows, keyOf, keys[m]);
      idx := SummarizeFollowsKeys(rows, keyOf, keys[..m]);
      if group != [] {
        idx := idx + [m];
      }
    }
  }

  lemma {:induction false} SummarizeTotals<K(!new)>(rows: seq<CustomerRow>, keyOf: CustomerRow -> K, keys: seq<K>)
    ensures Sum(Summarize(rows, keyOf, keys), GroupCount) == GroupTotals(keys, rows, keyOf, Unit)
    ensures Sum(Summarize(rows, keyOf, keys), GroupRevenue) == GroupTotals(keys, rows, keyOf, RowRevenue)
  {
    if keys != [] {
      var m := |keys| - 1;
      var group := Select(rows, keyOf, keys[m]);
      var rest := Summarize(rows, keyOf, keys[..m]);
      SummarizeTotals(rows, keyOf, keys[..m]);
      SumUnit(group);
      if group != [] {
        var g := GroupSummary(keys[m], |group|, Sum(group, RowRevenue));
        SumSnoc(rest, g, GroupCount);
        SumSnoc(rest, g, GroupRevenue);
      }
    }
  }

  /** When the keys are distinct and cover every row, each customer is
      counted in exactly one summary row: the counts add up to the number of
      customers and the revenues to their total. */
  lemma SummaryPartition<K(!new)>(rows: seq<CustomerRow>, keyOf: CustomerRow -> K, keys: seq<K>)
    requires Distinct(keys)
    requires forall c :: c in rows ==> keyOf(c) in keys
    ensures Sum(Summarize(rows, keyOf, keys), GroupCount) == |rows|
    ensures Sum(Summarize(rows, keyOf, keys), GroupRevenue) == Sum(rows, RowRevenue)
  {
    SummarizeTotals(rows, keyOf, keys);
    PartitionTotal(keys, rows, keyOf, Unit);
    PartitionTotal(keys, rows, keyOf, RowRevenue);
    SumUnit(rows);
  }

  // ---------------------------------------------------------------------------
  // The three summaries

  function SegmentOfRow(c: CustomerRow): Segment {
    c.segment
  }

  function TypeOfRow(c: CustomerRow): CustomerType {
    c.customerType
  }

  function RfmSegmentOfRow(c: CustomerRow): RfmSegment {
    c.rfmSegment
  }

  /** The segments in ascending order of their labels, the order a groupby
      (or a count sorted by index) lists them in. */
  const SegmentOrder: seq<Segment> := [Loyal, Occasional, OneTime, Regular, TwoTime]

  const TypeOrder: seq<CustomerType> := [OneTimeBuyer, RepeatBuyer]

  const RfmSegmentOrder: seq<RfmSegment> := [AtRisk, Champions, Lost, LoyalCustomers, PotentialLoyalists]

  /** Each key order lists every key once. */
  lemma KeyOrdersCover()
    ensures Distinct(SegmentOrder) && forall s: Segment :: s in SegmentOrder
    ensures Distinct(TypeOrder) && forall t: CustomerType :: t in TypeOrder
    ensures Distinct(RfmSegmentOrder) && forall s: RfmSegment :: s in RfmSegmentOrder
  {
    forall s: Segment
      ensures s in SegmentOrder
    {
      match s
      case Loyal => assert SegmentOrder[0] == s;
      case Occasional => assert SegmentOrder[1] == s;
      case OneTime => assert SegmentOrder[2] == s;
      case Regular => assert SegmentOrder[3] == s;
      case TwoTime => assert SegmentOrder[4] == s;
    }
    forall t: CustomerType
      ensures t in TypeOrder
    {
      match t
      case OneTimeBuyer => assert TypeOrder[0] == t;
      case RepeatBuyer => assert TypeOrder[1] == t;
    }
    forall s: RfmSegment
      ensures s in RfmSegmentOrder
    {
      match s
      case AtRisk => assert RfmSegmentOrder[0] == s;
      case Champions => assert RfmSegmentOrder[1] == s;
      case Lost => assert RfmSegmentOrder[2] == s;
      case LoyalCustomers => assert RfmSegmentOrder[3] == s;
      case PotentialLoyalists => assert RfmSegmentOrder[4] == s;
    }
  }

  /** The labels of the segment order, in that order. */
  function SegmentLabels(): (labels: seq<string>)
    ensures |labels| == |SegmentOrder|
    ensures forall i :: 0 <= i < |SegmentOrder| ==> labels[i] == SegmentLabel(SegmentOrder[i])
  {
    ["Loyal Customer (10+ orders)", "Occasional Buyer (3-5 orders)", "One-Time Buyer",
     "Regular Buyer (6-10 orders)", "Two-Time Buyer"]
  }

  /** The labels of the RFM segment order, in that order. */
  function RfmSegmentLabels(): (labels: seq<string>)
    ensures |labels| == |RfmSegmentOrder|
    ensures forall i :: 0 <= i < |RfmSegmentOrder| ==> labels[i] == RfmSegmentLabel(RfmSegmentOrder[i])
  {
    ["At Risk", "Champions", "Lost", "Loyal Customers", "Potential Loyalists"]
  }

  /** Consecutive segment labels ascend. */
  lemma SegmentLabelsStep()
    ensures forall i :: 0 <= i < |SegmentLabels()| - 1 ==> LexLess(SegmentLabels()[i], SegmentLabels()[i + 1])
  {
    LexLessByHead("Loyal Customer (10+ orders)", "Occasional Buyer (3-5 orders)");
    LexLessByHead("ccasional Buyer (3-5 orders)", "ne-Time Buyer");
    LexLessByTail("Occasional Buyer (3-5 orders)", "One-Time Buyer");
    LexLessByHead("One-Time Buyer", "Regular Buyer (6-10 orders)");
    LexLessByHead("Regular Buyer (6-10 orders)", "Two-Time Buyer");
  }

  /** The segment order runs in ascending string order of the labels, as
      `sort_index` and groupby list them. */
  lemma SegmentOrderAscending()
    ensures forall i, j :: 0 <= i < j < |SegmentOrder| ==>
              LexLess(SegmentLabel(SegmentOrder[i]), SegmentLabel(SegmentOrder[j]))
  {
    SegmentLabelsStep();
    ChainAscending(SegmentLabels());
  }

  /** Consecutive RFM segment labels ascend. */
  lemma RfmSegmentLabelsStep()
    ensures forall i :: 0 <= i < |RfmSegmentLabels()| - 1 ==>
              LexLess(RfmSegmentLabels()[i], RfmSegmentLabels()[i + 1])
  {
    LexLessByHead("At Risk", "Champions");
    LexLessByHead("Champions", "Lost");
    LexLessByHead("st", "yal Customers");
    LexLessByTail("ost", "oyal Customers");
    LexLessByTail("Lost", "Loyal Customers");
    LexLessByHead("Loyal Customers", "Potential Loyalists");
  }

  /** The type order and the RFM segment order run in ascending string order
      of the labels. */
  lemma TypeAndRfmOrdersAscending()
    ensures LexLess(TypeLabel(TypeOrder[0]), TypeLabel(TypeOrder[1]))
    ensures forall i, j :: 0 <= i < j < |RfmSegmentOrder| ==>
              LexLess(RfmSegmentLabel(RfmSegmentOrder[i]), RfmSegmentLabel(RfmSegmentOrder[j]))
  {
    LexLessByHead("One-Time Buyer", "Repeat Buyer");
    RfmSegmentLabelsStep();
    ChainAscending(RfmSegmentLabels());
  }

  /** Customers and revenue per order-count segment. */
  function SegmentSummary(rows: seq<CustomerRow>): (s: seq<GroupSummary<Segment>>)
    ensures forall c :: c in rows ==> exists g :: g in s && g.key == SegmentOfRow(c)
    ensures forall i, j :: 0 <= i < j < |s| ==> s[i].key != s[j].key
    ensures forall g :: g in s ==>
              && g.customerCount == |Select(rows, SegmentOfRow, g.key)|
              && g.customerCount >= 1
              && g.totalRevenue == Sum(Select(rows, SegmentOfRow, g.key), RowRevenue)
  {
    KeyOrdersCover();
    SummaryKeysDistinct(rows, SegmentOfRow, SegmentOrder);
    SummaryCoversRows(rows, SegmentOfRow, SegmentOrder);
    Summarize(rows, SegmentOfRow, SegmentOrder)
  }

  /** Customers and revenue of one-time and of repeat buyers. */
  function TypeSummary(rows: seq<CustomerRow>): (s: seq<GroupSummary<CustomerType>>)
    ensures forall c :: c in rows ==> exists g :: g in s && g.key == TypeOfRow(c)
    ensures forall i, j :: 0 <= i < j < |s| ==> s[i].key != s[j].key
    ensures forall g :: g in s ==>
              && g.customerCount == |Select(rows, TypeOfRow, g.key)|
              && g.customerCount >= 1
              && g.totalRevenue == Sum(Select(rows, TypeOfRow, g.key), RowRevenue)
  {
    KeyOrdersCover();
    SummaryKeysDistinct(rows, TypeOfRow, TypeOrder);
    SummaryCoversRows(rows, TypeOfRow, TypeOrder);
    Summarize(rows, TypeOfRow, TypeOrder)
  }

  /** Customers and revenue per RFM segment. */
  function RfmSummary(rows: seq<CustomerRow>): (s: seq<GroupSummary<RfmSegment>>)
    ensures forall c :: c in rows ==> exists g :: g in s && g.key == RfmSegmentOfRow(c)
    ensures forall i, j :: 0 <= i < j < |s| ==> s[i].key != s[j].key
    ensures forall g :: g in s ==>
              && g.customerCount == |Select(rows, RfmSegmentOfRow, g.key)|
              && g.customerCount >= 1
              && g.totalRevenue == Sum(Select(rows, RfmSegmentOfRow, g.key), RowRevenue)
  {
    KeyOrdersCover();
    SummaryKeysDistinct(rows, RfmSegmentOfRow, RfmSegmentOrder);
    SummaryCoversRows(rows, RfmSegmentOfRow, RfmSegmentOrder);
    Summarize(rows, RfmSegmentOfRow, RfmSegmentOrder)
  }

  /** Every customer falls in exactly one group of each summary: for each of
      the three, the customer counts add up to the number of customers and
      the revenues to the revenue of all transactions. */
  lemma SegmentSummaryTotals(txs: seq<Records.Transaction>)
    requires |Aggregation.CustomerIds(txs)| >= 2
    ensures Sum(SegmentSummary(CustomerTable(txs)), GroupCount) == |CustomerTable(txs)|
    ensures Sum(SegmentSummary(CustomerTable(txs)), GroupRevenue) == Sum(txs, Records.AmountOf)
  {
    KeyOrdersCover();
    CustomerTableTotals(txs);
    SummaryPartition(CustomerTable(txs), SegmentOfRow, SegmentOrder);
  }

  lemma TypeSummaryTotals(txs: seq<Records.Transaction>)
    requires |Aggregation.CustomerIds(txs)| >= 2
    ensures Sum(TypeSummary(CustomerTable(txs)), GroupCount) == |CustomerTable(txs)|
    ensures Sum(TypeSummary(CustomerTable(txs)), GroupRevenue) == Sum(txs, Records.AmountOf)
  {
    KeyOrdersCover();
    CustomerTableTotals(txs);
    SummaryPartition(CustomerTable(txs), TypeOfRow, TypeOrder);
  }

  lemma RfmSummaryTotals(txs: seq<Records.Transaction>)
    requires |Aggregation.CustomerIds(txs)| >= 2
    ensures Sum(RfmSummary(CustomerTable(txs)), GroupCount) == |CustomerTable(txs)|
    ensures Sum(RfmSummary(CustomerTable(txs)), GroupRevenue) == Sum(txs, Records.AmountOf)
  {
    KeyOrdersCover();
    CustomerTableTotals(txs);
    SummaryPartition(CustomerTable(txs), RfmSegmentOfRow, RfmSegmentOrder);
  }

  // ---------------------------------------------------------------------------
  // The RFM summary by revenue

  /** Summary rows by revenue, largest first. */
  predicate RevenueDescending(s: seq<GroupSummary<RfmSegment>>) {
    forall i, j :: 0 <= i < j < |s| ==> s[i].totalRevenue >= s[j].totalRevenue
  }

  lemma RevenueDescendingCons(g: GroupSummary<RfmSegment>, s: seq<GroupSummary<RfmSegment>>)
    requires RevenueDescending(s)
    requires forall x :: x in multiset(s) ==> x.totalRevenue <= g.totalRevenue
    ensures RevenueDescending([g] + s)
  {
    assert forall j :: 0 <= j < |s| ==> s[j] in multiset(s);
  }

  /** The first row of a descending sequence has the largest revenue. */
  lemma RevenueDescendingHead(s: seq<GroupSummary<RfmSegment>>)
    requires RevenueDescending(s) && s != []
    ensures forall x :: x in multiset(s) ==> x.totalRevenue <= s[0].totalRevenue
  {
    forall x | x in multiset(s)
      ensures x.totalRevenue <= s[0].totalRevenue
    {
      var j :| 0 <= j < |s| && s[j] == x;
    }
  }

  /** Inserting a row of no larger revenue behind the head keeps the head
      the largest. */
  lemma InsertedBelowHead(s: seq<GroupSummary<RfmSegment>>, g: GroupSummary<RfmSegment>, rest: seq<GroupSummary<RfmSegment>>)
    requires RevenueDescending(s) && s != [] && g.totalRevenue <= s[0].totalRevenue
    requires multiset(rest) == multiset(s[1..]) + multiset{g}
    ensures forall x :: x in multiset(rest) ==> x.totalRevenue <= s[0].totalRevenue
  {
    RevenueDescendingHead(s);
    assert s == [s[0]] + s[1..];
  }

  /** Inserts `g` after every row with at least its revenue. */
  function InsertByRevenue(s: seq<GroupSummary<RfmSegment>>, g: GroupSummary<RfmSegment>): (r: seq<GroupSummary<RfmSegment>>)
    requires RevenueDescending(s)
    ensures RevenueDescending(r)
    ensures multiset(r) == multiset(s) + multiset{g}
  {
    if s == [] then [g]
    else
      RevenueDescendingHead(s);
      if s[0].totalRevenue < g.totalRevenue then
        RevenueDescendingCons(g, s);
        [g] + s
      else
        assert s == [s[0]] + s[1..];
        var rest := InsertByRevenue(s[1..], g);
        InsertedBelowHead(s, g, rest);
        RevenueDescendingCons(s[0], rest);
        [s[0]] + rest
  }

  /** The rows reordered by revenue, largest first. */
  function SortByRevenue(s: seq<GroupSummary<RfmSegment>>): (r: seq<GroupSummary<RfmSegment>>)
    ensures RevenueDescending(r)
    ensures multiset(r) == multiset(s)
  {
    if s == [] then []
    else
      assert s == s[..|s| - 1] + [s[|s| - 1]];
      InsertByRevenue(SortByRevenue(s[..|s| - 1]), s[|s| - 1])
  }

  /** The RFM summary as the script lists it: its rows by revenue, largest
      first. */
  function RfmSummaryByRevenue(rows: seq<CustomerRow>): (r: seq<GroupSummary<RfmSegment>>)
    ensures RevenueDescending(r)
    ensures multiset(r) == multiset(RfmSummary(rows))
  {
    SortByRevenue(RfmSummary(rows))
  }

  // ---------------------------------------------------------------------------
  // Repeat buyers

  /** A repeat buyer with its average days between orders. */
  datatype RepeatCustomer = RepeatCustomer(customer: CustomerRow, daysPerOrder: real)

  predicate IsRepeat(c: CustomerRow) {
    c.orderCount > 1
  }

  /** The lifetime spread over the gaps between orders; a repeat buyer has at
      least one gap, so the divisor is at least 1. */
  function DaysPerOrder(c: CustomerRow): (d: real)
    requires IsRepeat(c)
    ensures d * (c.orderCount - 1) as real == c.lifetimeDays as real
    ensures c.lifetimeDays >= 0 ==> 0.0 <= d <= c.lifetimeDays as real
  {
    var gaps := (c.orderCount - 1) as real;
    assert gaps >= 1.0;
    c.lifetimeDays as real / gaps
  }

  /** The repeat buyers of a table, in table order, with their days per
      order. */
  function RepeatOf(rows: seq<CustomerRow>): (rep: seq<RepeatCustomer>)
    ensures |rep| <= |rows|
    ensures forall x :: x in rep ==>
              x.customer in rows && IsRepeat(x.customer) && x.daysPerOrder == DaysPerOrder(x.customer)
    ensures forall c :: c in rows && IsRepeat(c) ==> exists x :: x in rep && x.customer == c
  {
    if rows == [] then []
    else
      var n := |rows| - 1;
      var c := rows[n];
      assert rows == rows[..n] + [c];
      RepeatOf(rows[..n]) + (if IsRepeat(c) then [RepeatCustomer(c, DaysPerOrder(c))] else [])
  }

  /** Keeps the rows with more than one order and adds their days per order. */
  method SelectRepeatCustomers(rows: seq<CustomerRow>) returns (repeat: seq<RepeatCustomer>)
    ensures repeat == RepeatOf(rows)
  {
    repeat := [];
    for i := 0 to |rows|
      invariant repeat == RepeatOf(rows[..i])
    {
      assert rows[..i + 1][..i] == rows[..i];
      if IsRepeat(rows[i]) {
        repeat := repeat + [RepeatCustomer(rows[i], DaysPerOrder(rows[i]))];
      }
    }
    assert rows[..|rows|] == rows;
  }

  /** In the customer table, every repeat buyer's days per order lies
      between zero and its lifetime. */
  lemma RepeatDaysPerOrderBounded(txs: seq<Records.Transaction>)
    requires |Aggregation.CustomerIds(txs)| >= 2
    ensures forall x :: x in RepeatOf(CustomerTable(txs)) ==>
              0.0 <= x.daysPerOrder <= x.customer.lifetimeDays as real
  {
    var rows := CustomerTable(txs);
    forall x | x in RepeatOf(rows)
      ensures 0.0 <= x.daysPerOrder <= x.customer.lifetimeDays as real
    {
      var i :| 0 <= i < |rows| && rows[i] == x.customer;
      CustomerRowFacts(txs, i);
    }
  }
}
