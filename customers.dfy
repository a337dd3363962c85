/** The customer table of the repeat versus one-time buyer analysis: the
    per-customer aggregate rows, with the segment, the binary type, the
    lifetime and recency in days, the R, F and M quintile scores, the RFM score
    string and the RFM segment added column by column. */
module CustomerAnalysis {
  import opened Records
  import opened Seqs
  import opened Calendar
  import opened Aggregation
  import opened Ranking
  import opened Segments

  datatype AnalysisError =
    /** The quintile cut needs at least two customers: with one, all five
        edges coincide and no buckets can be formed. */
    TooFewCustomers

  /** A row of the finished customer table. */
  datatype CustomerRow = CustomerRow(
    customerId: int,
    orderCount: int,
    firstPurchase: int,
    lastPurchase: int,
    totalRevenue: int,
    totalTransactions: int,
    segment: Segment,
    customerType: CustomerType,
    lifetimeDays: int,
    recencyDays: int,
    rScore: int,
    fScore: int,
    mScore: int,
    rfmScore: string,
    rfmSegment: RfmSegment)

  // ---------------------------------------------------------------------------
  // The table, as a function of the cleaned transactions

  /** The date recency is measured from: the table's last timestamp. */
  function AnalysisDate(txs: seq<Transaction>): (d: int)
    requires txs != []
    ensures exists t :: t in txs && t.invoiceDate == d
    ensures forall t :: t in txs ==> t.invoiceDate <= d
  {
    LastPurchase(txs)
  }

  /** The Recency_Days column. */
  function RecencyColumn(aggs: seq<CustomerAggregate>, analysisDate: int): (rec: seq<int>)
    ensures |rec| == |aggs|
    ensures forall i :: 0 <= i < |aggs| ==> rec[i] == ElapsedDays(aggs[i].lastPurchase, analysisDate)
  {
    seq(|aggs|, i requires 0 <= i < |aggs| => ElapsedDays(aggs[i].lastPurchase, analysisDate))
  }

  function OrderCountColumn(aggs: seq<CustomerAggregate>): (col: seq<int>)
    ensures |col| == |aggs|
    ensures forall i :: 0 <= i < |aggs| ==> col[i] == aggs[i].orderCount
  {
    seq(|aggs|, i requires 0 <= i < |aggs| => aggs[i].orderCount)
  }

  function RevenueColumn(aggs: seq<CustomerAggregate>): (col: seq<int>)
    ensures |col| == |aggs|
    ensures forall i :: 0 <= i < |aggs| ==> col[i] == aggs[i].totalRevenue
  {
    seq(|aggs|, i requires 0 <= i < |aggs| => aggs[i].totalRevenue)
  }

  /** A customer table needs a transaction, so a customer, to exist. */
  lemma CustomersHaveTransactions(txs: seq<Transaction>)
    requires |CustomerIds(txs)| >= 1
    ensures txs != []
  {
    assert CustomerIds(txs)[0] in CustomerIds(txs);
  }

  /** One customer's row with every column filled in. */
  function CustomerRowOf(a: CustomerAggregate, recency: int, r: int, f: int, m: int): (c: CustomerRow)
    requires 1 <= r <= 5 && 1 <= f <= 5 && 1 <= m <= 5
    ensures c.customerId == a.customerId && c.orderCount == a.orderCount
    ensures c.totalRevenue == a.totalRevenue && c.totalTransactions == a.totalTransactions
    ensures c.firstPurchase == a.firstPurchase && c.lastPurchase == a.lastPurchase
    ensures c.segment == ClassifyCustomer(a.orderCount) && c.customerType == CustomerTypeOf(a.orderCount)
    ensures c.lifetimeDays == ElapsedDays(a.firstPurchase, a.lastPurchase) && c.recencyDays == recency
    ensures c.rScore == r && c.fScore == f && c.mScore == m
    ensures c.rfmScore == RfmScore(r, f, m) && c.rfmSegment == CategorizeRfm(r, f, m)
  {
    CustomerRow(a.customerId, a.orderCount, a.firstPurchase, a.lastPurchase, a.totalRevenue,
                a.totalTransactions, ClassifyCustomer(a.orderCount), CustomerTypeOf(a.orderCount),
                ElapsedDays(a.firstPurchase, a.lastPurchase), recency, r, f, m,
                RfmScore(r, f, m), CategorizeRfm(r, f, m))
  }

  /** `c` is row `i` of the table scored from `aggs`: it carries the
      aggregate row's figures, its segment, type, lifetime and recency, its
      scores are the labels of the quintiles holding its recency, order-count
      and revenue ranks, and its RFM score string and RFM segment are those of
      its scores. */
  predicate ScoredFrom(aggs: seq<CustomerAggregate>, analysisDate: int, i: int, c: CustomerRow)
    requires |aggs| >= 2 && 0 <= i < |aggs|
  {
    && c.customerId == aggs[i].customerId && c.orderCount == aggs[i].orderCount
    && c.totalRevenue == aggs[i].totalRevenue && c.totalTransactions == aggs[i].totalTransactions
    && c.firstPurchase == aggs[i].firstPurchase && c.lastPurchase == aggs[i].lastPurchase
    && c.segment == ClassifyCustomer(aggs[i].orderCount)
    && c.customerType == CustomerTypeOf(aggs[i].orderCount)
    && c.lifetimeDays == ElapsedDays(aggs[i].firstPurchase, aggs[i].lastPurchase)
    && c.recencyDays == ElapsedDays(aggs[i].lastPurchase, analysisDate)
    && 1 <= c.rScore <= 5 && 1 <= c.fScore <= 5 && 1 <= c.mScore <= 5
    && InQuintile(Rank(RecencyColumn(aggs, analysisDate), i), |aggs|, 5 - c.rScore)
    && InQuintile(Rank(OrderCountColumn(aggs), i), |aggs|, c.fScore - 1)
    && InQuintile(Rank(RevenueColumn(aggs), i), |aggs|, c.mScore - 1)
    && c.rfmScore == RfmScore(c.rScore, c.fScore, c.mScore)
    && c.rfmSegment == CategorizeRfm(c.rScore, c.fScore, c.mScore)
  }

  /** Row `i` of the scored table. */
  function ScoredRow(aggs: seq<CustomerAggregate>, analysisDate: int, i: int): (c: CustomerRow)
    requires |aggs| >= 2 && 0 <= i < |aggs|
    ensures ScoredFrom(aggs, analysisDate, i, c)
  {
    var n := |aggs|;
    var rec := RecencyColumn(aggs, analysisDate);
    CustomerRowOf(aggs[i], rec[i], RecencyScore(Rank(rec, i), n),
                  AscendingScore(Rank(OrderCountColumn(aggs), i), n),
                  AscendingScore(Rank(RevenueColumn(aggs), i), n))
  }

  /** The scored rows of aggregate rows, with recency measured from
      `analysisDate`. */
  function ScoreRows(aggs: seq<CustomerAggregate>, analysisDate: int): (rows: seq<CustomerRow>)
    requires |aggs| >= 2
    ensures |rows| == |aggs|
    ensures forall i :: 0 <= i < |aggs| ==> ScoredFrom(aggs, analysisDate, i, rows[i])
  {
    seq(|aggs|, i requires 0 <= i < |aggs| => ScoredRow(aggs, analysisDate, i))
  }

  /** `row` holds customer `c`'s figures from the transactions: its number
      of distinct invoices, its revenue and its number of line items. */
  predicate FiguresOf(txs: seq<Transaction>, c: int, row: CustomerRow) {
    && row.customerId == c
    && row.orderCount == |set t | t in txs && t.customerId == c :: t.invoice|
    && row.totalRevenue == Sum(Select(txs, CustomerOf, c), AmountOf)
    && row.totalTransactions == |Select(txs, CustomerOf, c)|
  }

  /** The finished customer table, one row per customer in ascending ID order,
      each holding that customer's figures, with recency measured from the
      table's last timestamp. */
  function CustomerTable(txs: seq<Transaction>): (rows: seq<CustomerRow>)
    requires |CustomerIds(txs)| >= 2
    ensures txs != [] && |rows| == |CustomerIds(txs)|
    ensures forall i :: 0 <= i < |rows| ==>
              && FiguresOf(txs, CustomerIds(txs)[i], rows[i])
              && rows[i].recencyDays == ElapsedDays(rows[i].lastPurchase, AnalysisDate(txs))
  {
    CustomersHaveTransactions(txs);
    var rows := ScoreRows(Aggregate(txs), AnalysisDate(txs));
    TableFigures(txs, rows);
    rows
  }

  /** The scored rows of the aggregate rows hold each customer's figures. */
  lemma TableFigures(txs: seq<Transaction>, rows: seq<CustomerRow>)
    requires |CustomerIds(txs)| >= 2 && txs != []
    requires rows == ScoreRows(Aggregate(txs), AnalysisDate(txs))
    ensures forall i :: 0 <= i < |rows| ==>
              && FiguresOf(txs, CustomerIds(txs)[i], rows[i])
              && rows[i].recencyDays == ElapsedDays(rows[i].lastPurchase, AnalysisDate(txs))
  {
    var aggs := Aggregate(txs);
    forall i | 0 <= i < |rows|
      ensures FiguresOf(txs, CustomerIds(txs)[i], rows[i])
      ensures rows[i].recencyDays == ElapsedDays(rows[i].lastPurchase, AnalysisDate(txs))
    {
      assert ScoredFrom(aggs, AnalysisDate(txs), i, rows[i]);
      assert aggs[i] == AggregateCustomer(txs, CustomerIds(txs)[i]);
      assert rows[i] == ScoredRow(aggs, AnalysisDate(txs), i);
    }
  }

  // ---------------------------------------------------------------------------
  // The table, as the script builds it

  /** Step 2: the order-count segment and the binary type of every row. */
  method AddSegments(aggs: seq<CustomerAggregate>) returns (segments: seq<Segment>, types: seq<CustomerType>)
    ensures |segments| == |aggs| && |types| == |aggs|
    ensures forall k :: 0 <= k < |aggs| ==> segments[k] == ClassifyCustomer(aggs[k].orderCount)
    ensures forall k :: 0 <= k < |aggs| ==> types[k] == CustomerTypeOf(aggs[k].orderCount)
  {
    segments, types := [], [];
    for i := 0 to |aggs|
      invariant |segments| == i && |types| == i
      invariant forall k :: 0 <= k < i ==> segments[k] == ClassifyCustomer(aggs[k].orderCount)
      invariant forall k :: 0 <= k < i ==> types[k] == CustomerTypeOf(aggs[k].orderCount)
    {
      segments := segments + [ClassifyCustomer(aggs[i].orderCount)];
      types := types + [CustomerTypeOf(aggs[i].orderCount)];
    }
  }

  /** Step 5: the whole days from first to last purchase. */
  method AddLifetimes(aggs: seq<CustomerAggregate>) returns (lifetimes: seq<int>)
    ensures |lifetimes| == |aggs|
    ensures forall k :: 0 <= k < |aggs| ==>
              lifetimes[k] == ElapsedDays(aggs[k].firstPurchase, aggs[k].lastPurchase)
  {
    lifetimes := [];
    for i := 0 to |aggs|
      invariant |lifetimes| == i
      invariant forall k :: 0 <= k < i ==>
                  lifetimes[k] == ElapsedDays(aggs[k].firstPurchase, aggs[k].lastPurchase)
    {
      lifetimes := lifetimes + [ElapsedDays(aggs[i].firstPurchase, aggs[i].lastPurchase)];
    }
  }

  /** Step 6: the whole days from each last purchase to the analysis date. */
  method AddRecency(aggs: seq<CustomerAggregate>, analysisDate: int) returns (recency: seq<int>)
    ensures recency == RecencyColumn(aggs, analysisDate)
  {
    recency := [];
    for i := 0 to |aggs|
      invariant |recency| == i
      invariant forall k :: 0 <= k < i ==> recency[k] == ElapsedDays(aggs[k].lastPurchase, analysisDate)
    {
      recency := recency + [ElapsedDays(aggs[i].lastPurchase, analysisDate)];
    }
  }

  /** The R, F and M scores: each column ranked, and the ranks cut into
      quintiles labelled 5..1 for recency and 1..5 for the other two. */
  method AddScores(recency: seq<int>, orders: seq<int>, revenue: seq<int>)
    returns (rScores: seq<int>, fScores: seq<int>, mScores: seq<int>)
    requires |recency| >= 2 && |orders| == |recency| && |revenue| == |recency|
    ensures |rScores| == |recency| && |fScores| == |recency| && |mScores| == |recency|
    ensures forall k :: 0 <= k < |recency| ==> rScores[k] == RecencyScore(Rank(recency, k), |recency|)
    ensures forall k :: 0 <= k < |recency| ==> fScores[k] == AscendingScore(Rank(orders, k), |recency|)
    ensures forall k :: 0 <= k < |recency| ==> mScores[k] == AscendingScore(Rank(revenue, k), |recency|)
  {
    var n := |recency|;
    rScores, fScores, mScores := [], [], [];
    for i := 0 to n
      invariant |rScores| == i && |fScores| == i && |mScores| == i
      invariant forall k :: 0 <= k < i ==> rScores[k] == RecencyScore(Rank(recency, k), n)
      invariant forall k :: 0 <= k < i ==> fScores[k] == AscendingScore(Rank(orders, k), n)
      invariant forall k :: 0 <= k < i ==> mScores[k] == AscendingScore(Rank(revenue, k), n)
    {
      rScores := rScores + [RecencyScore(Rank(recency, i), n)];
      fScores := fScores + [AscendingScore(Rank(orders, i), n)];
      mScores := mScores + [AscendingScore(Rank(revenue, i), n)];
    }
  }

  /** The RFM score strings and the RFM segments of rows whose scores are
      in 1..5. */
  method AddRfm(rScores: seq<int>, fScores: seq<int>, mScores: seq<int>)
    returns (rfmScores: seq<string>, rfmSegments: seq<RfmSegment>)
    requires |fScores| == |rScores| && |mScores| == |rScores|
    requires forall k :: 0 <= k < |rScores| ==>
               1 <= rScores[k] <= 5 && 1 <= fScores[k] <= 5 && 1 <= mScores[k] <= 5
    ensures |rfmScores| == |rScores| && |rfmSegments| == |rScores|
    ensures forall k :: 0 <= k < |rScores| ==> rfmScores[k] == RfmScore(rScores[k], fScores[k], mScores[k])
    ensures forall k :: 0 <= k < |rScores| ==>
              rfmSegments[k] == CategorizeRfm(rScores[k], fScores[k], mScores[k])
  {
    rfmScores := [];
    for i := 0 to |rScores|
      invariant |rfmScores| == i
      invariant forall k :: 0 <= k < i ==> rfmScores[k] == RfmScore(rScores[k], fScores[k], mScores[k])
    {
      rfmScores := rfmScores + [RfmScore(rScores[i], fScores[i], mScores[i])];
    }
    rfmSegments := [];
    for i := 0 to |rScores|
      invariant |rfmSegments| == i
      invariant forall k :: 0 <= k < i ==> rfmSegments[k] == CategorizeRfm(rScores[k], fScores[k], mScores[k])
    {
      rfmSegments := rfmSegments + [CategorizeRfm(rScores[i], fScores[i], mScores[i])];
    }
  }

  /** Steps 2 to 6 on the aggregate rows: every column after the groupby. */
  method ScoreCustomers(aggs: seq<CustomerAggregate>, analysisDate: int) returns (rows: seq<CustomerRow>)
    requires |aggs| >= 2
    ensures rows == ScoreRows(aggs, analysisDate)
  {
    var n := |aggs|;
    var segments, types := AddSegments(aggs);
    var lifetimes := AddLifetimes(aggs);
    var recency := AddRecency(aggs, analysisDate);
    var rScores, fScores, mScores := AddScores(recency, OrderCountColumn(aggs), RevenueColumn(aggs));
    var rfmScores, rfmSegments := AddRfm(rScores, fScores, mScores);
    rows := seq(n, i requires 0 <= i < n =>
      CustomerRow(aggs[i].customerId, aggs[i].orderCount, aggs[i].firstPurchase,
                  aggs[i].lastPurchase, aggs[i].totalRevenue, aggs[i].totalTransactions,
                  segments[i], types[i], lifetimes[i], recency[i], rScores[i], fScores[i],
                  mScores[i], rfmScores[i], rfmSegments[i]));
    var spec := ScoreRows(aggs, analysisDate);
    forall i | 0 <= i < n
      ensures rows[i] == spec[i]
    {
    }
  }

  /** The whole analysis up to the RFM segment: the groupby, then every added
      column; fails where the quintile cut would, with fewer than two
      customers. */
  method AnalyzeCustomers(txs: seq<Transaction>) returns (res: Result<seq<CustomerRow>, AnalysisError>)
    ensures res.Failure? <==> |CustomerIds(txs)| < 2
    ensures res.Success? ==> res.value == CustomerTable(txs)
  {
    var aggs := Aggregate(txs);
    if |aggs| < 2 {
      return Failure(TooFewCustomers);
    }
    CustomersHaveTransactions(txs);
    var rows := ScoreCustomers(aggs, AnalysisDate(txs));
    return Success(rows);
  }

  // ---------------------------------------------------------------------------
  // What the table promises

  /** Every aggregate row's last purchase is at or before the analysis date. */
  lemma LastPurchaseBeforeAnalysisDate(txs: seq<Transaction>, i: int)
    requires txs != [] && 0 <= i < |Aggregate(txs)|
    ensures Aggregate(txs)[i].lastPurchase <= AnalysisDate(txs)
  {
    var a := Aggregate(txs)[i];
    var t :| t in txs && t.customerId == a.customerId && t.invoiceDate == a.lastPurchase;
  }

  /** Every row of the table is well formed: its customer is the i-th
      distinct ID, it has at least one order and no more orders than line
      items, its lifetime and recency are whole days that are not negative,
      its three scores are in 1..5 and spelled out by its RFM score string,
      and its labels are those of its order count and scores. */
  lemma CustomerRowFacts(txs: seq<Transaction>, i: int)
    requires |CustomerIds(txs)| >= 2 && 0 <= i < |CustomerIds(txs)|
    ensures var row := CustomerTable(txs)[i];
            && row.customerId == CustomerIds(txs)[i]
            && 1 <= row.orderCount <= row.totalTransactions
            && row.firstPurchase <= row.lastPurchase
            && row.lifetimeDays >= 0 && row.recencyDays >= 0
            && 1 <= row.rScore <= 5 && 1 <= row.fScore <= 5 && 1 <= row.mScore <= 5
            && ParseRfmScore(row.rfmScore) == Some((row.rScore, row.fScore, row.mScore))
            && row.segment == ClassifyCustomer(row.orderCount)
            && (row.customerType == OneTimeBuyer <==> row.segment == OneTime)
            && row.rfmSegment == CategorizeRfm(row.rScore, row.fScore, row.mScore)
  {
    CustomersHaveTransactions(txs);
    LastPurchaseBeforeAnalysisDate(txs, i);
    var row := CustomerTable(txs)[i];
    RfmScoreRoundTrip(row.rScore, row.fScore, row.mScore);
    TypeAgreesWithSegment(row.orderCount);
  }

  /** The owner of the table's last timestamp has a row whose last purchase
      is the analysis date. */
  lemma CurrentCustomer(txs: seq<Transaction>) returns (i: int)
    requires txs != []
    ensures 0 <= i < |Aggregate(txs)| && Aggregate(txs)[i].lastPurchase == AnalysisDate(txs)
  {
    var ids := CustomerIds(txs);
    var date := AnalysisDate(txs);
    var t :| t in txs && t.invoiceDate == date;
    assert HasCustomer(txs, t.customerId);
    i :| 0 <= i < |ids| && ids[i] == t.customerId;
    LastPurchaseBeforeAnalysisDate(txs, i);
  }

  /** Scored rows measured from a date no earlier than any last purchase, and
      equal to one of them, have a row with zero days of recency that scores
      R = 5: the row ranked first on recency. */
  lemma ScoreRowsCurrent(aggs: seq<CustomerAggregate>, analysisDate: int, c: int) returns (i: int)
    requires |aggs| >= 2 && 0 <= c < |aggs| && aggs[c].lastPurchase == analysisDate
    requires forall k :: 0 <= k < |aggs| ==> aggs[k].lastPurchase <= analysisDate
    ensures 0 <= i < |aggs|
    ensures Rank(RecencyColumn(aggs, analysisDate), i) == 1
    ensures ScoreRows(aggs, analysisDate)[i].recencyDays == 0 && ScoreRows(aggs, analysisDate)[i].rScore == 5
  {
    var n := |aggs|;
    var rows := ScoreRows(aggs, analysisDate);
    var rec := RecencyColumn(aggs, analysisDate);
    RanksArePermutation(rec, 1);
    i :| 0 <= i < n && Rank(rec, i) == 1;
    BucketEnds(n);
    RankOrder(rec, c, i);
    assert rec[c] == 0;
    assert rec[i] >= 0;
    assert rows[i].recencyDays == rec[i];
  }

  /** The customer ranked first on recency scores R = 5, and it is a customer
      with zero days of recency (with ties, not necessarily every such one:
      see TiedRecencyCanScoreOne). */
  lemma MostRecentScoresFive(txs: seq<Transaction>)
    requires |CustomerIds(txs)| >= 2
    ensures exists i :: 0 <= i < |CustomerTable(txs)| &&
              CustomerTable(txs)[i].recencyDays == 0 && CustomerTable(txs)[i].rScore == 5
  {
    CustomersHaveTransactions(txs);
    var aggs := Aggregate(txs);
    var c := CurrentCustomer(txs);
    forall k | 0 <= k < |aggs|
      ensures aggs[k].lastPurchase <= AnalysisDate(txs)
    {
      LastPurchaseBeforeAnalysisDate(txs, k);
    }
    var i := ScoreRowsCurrent(aggs, AnalysisDate(txs), c);
    assert CustomerTable(txs)[i] == ScoreRows(aggs, AnalysisDate(txs))[i];
  }

  /** In a column of non-negative values, the first zero holds rank 1. */
  lemma FirstZeroRanksFirst(vals: seq<int>, i: int)
    requires 0 <= i < |vals| && vals[i] == 0
    requires forall k :: 0 <= k < |vals| ==> vals[k] >= 0
    requires forall k :: 0 <= k < i ==> vals[k] != 0
    ensures Rank(vals, i) == 1
  {
    RanksArePermutation(vals, 1);
    var j :| 0 <= j < |vals| && Rank(vals, j) == 1;
    if j != i {
      RankOrder(vals, j, i);
    }
  }

  /** The first row with zero days of recency holds rank 1 on recency, so it
      scores R = 5. */
  lemma FirstZeroDayRowScoresFive(aggs: seq<CustomerAggregate>, analysisDate: int, i: int)
    requires |aggs| >= 2 && 0 <= i < |aggs|
    requires forall k :: 0 <= k < |aggs| ==> aggs[k].lastPurchase <= analysisDate
    requires ScoreRows(aggs, analysisDate)[i].recencyDays == 0
    requires forall k :: 0 <= k < i ==> ScoreRows(aggs, analysisDate)[k].recencyDays != 0
    ensures Rank(RecencyColumn(aggs, analysisDate), i) == 1
    ensures ScoreRows(aggs, analysisDate)[i].rScore == 5
  {
    var n := |aggs|;
    var rows := ScoreRows(aggs, analysisDate);
    var rec := RecencyColumn(aggs, analysisDate);
    forall k | 0 <= k < n
      ensures rec[k] == rows[k].recencyDays && rec[k] >= 0
    {
      assert ScoredFrom(aggs, analysisDate, k, rows[k]);
    }
    FirstZeroRanksFirst(rec, i);
    assert ScoredFrom(aggs, analysisDate, i, rows[i]);
    BucketEnds(n);
    BucketIsQuintile(1, n, 5 - rows[i].rScore);
  }

  /** Among the customers with zero days of recency, the one with the lowest
      Customer ID scores R = 5. */
  lemma LowestZeroDayCustomerScoresFive(txs: seq<Transaction>, i: int)
    requires |CustomerIds(txs)| >= 2 && 0 <= i < |CustomerIds(txs)|
    requires CustomerTable(txs)[i].recencyDays == 0
    requires forall k :: 0 <= k < |CustomerIds(txs)| && CustomerTable(txs)[k].recencyDays == 0 ==>
               CustomerTable(txs)[i].customerId <= CustomerTable(txs)[k].customerId
    ensures CustomerTable(txs)[i].rScore == 5
  {
    CustomersHaveTransactions(txs);
    var aggs := Aggregate(txs);
    var table := CustomerTable(txs);
    var ids := CustomerIds(txs);
    forall k | 0 <= k < |aggs|
      ensures aggs[k].lastPurchase <= AnalysisDate(txs)
    {
      LastPurchaseBeforeAnalysisDate(txs, k);
    }
    forall k | 0 <= k < i
      ensures table[k].recencyDays != 0
    {
      assert FiguresOf(txs, ids[k], table[k]) && FiguresOf(txs, ids[i], table[i]);
      assert ids[k] < ids[i];
    }
    FirstZeroDayRowScoresFive(aggs, AnalysisDate(txs), i);
  }

  /** Ranked scores follow their columns: a row with a smaller column value,
      or an equal value and an earlier row, has a score at least as good as
      the later one's (lower for F and M, higher for R). */
  lemma ScoresFollowColumns(aggs: seq<CustomerAggregate>, analysisDate: int, i: int, j: int)
    requires |aggs| >= 2 && 0 <= i < |aggs| && 0 <= j < |aggs|
    ensures var rows := ScoreRows(aggs, analysisDate);
            && (Precedes(RecencyColumn(aggs, analysisDate), i, j) ==> rows[i].rScore >= rows[j].rScore)
            && (Precedes(OrderCountColumn(aggs), i, j) ==> rows[i].fScore <= rows[j].fScore)
            && (Precedes(RevenueColumn(aggs), i, j) ==> rows[i].mScore <= rows[j].mScore)
  {
    var n := |aggs|;
    var rec, orders, revenue := RecencyColumn(aggs, analysisDate), OrderCountColumn(aggs), RevenueColumn(aggs);
    RankOrder(rec, i, j);
    RankOrder(orders, i, j);
    RankOrder(revenue, i, j);
    if Precedes(rec, i, j) {
      ScoresMonotone(Rank(rec, i), Rank(rec, j), n);
    }
    if Precedes(orders, i, j) {
      ScoresMonotone(Rank(orders, i), Rank(orders, j), n);
    }
    if Precedes(revenue, i, j) {
      ScoresMonotone(Rank(revenue, i), Rank(revenue, j), n);
    }
  }

  lemma ScoreRowsMonotone(aggs: seq<CustomerAggregate>, analysisDate: int, i: int, j: int)
    requires |aggs| >= 2 && 0 <= i < |aggs| && 0 <= j < |aggs|
    ensures var rows := ScoreRows(aggs, analysisDate);
            && (rows[i].orderCount < rows[j].orderCount ==> rows[i].fScore <= rows[j].fScore)
            && (rows[i].totalRevenue < rows[j].totalRevenue ==> rows[i].mScore <= rows[j].mScore)
            && (rows[i].recencyDays < rows[j].recencyDays ==> rows[i].rScore >= rows[j].rScore)
  {
    ScoresFollowColumns(aggs, analysisDate, i, j);
  }

  /** More orders never give a lower F score, more revenue never a lower M
      score, and more days of recency never a higher R score. */
  lemma ScoresMonotoneInTable(txs: seq<Transaction>, i: int, j: int)
    requires |CustomerIds(txs)| >= 2 && 0 <= i < |CustomerIds(txs)| && 0 <= j < |CustomerIds(txs)|
    ensures var rows := CustomerTable(txs);
            && (rows[i].orderCount < rows[j].orderCount ==> rows[i].fScore <= rows[j].fScore)
            && (rows[i].totalRevenue < rows[j].totalRevenue ==> rows[i].mScore <= rows[j].mScore)
            && (rows[i].recencyDays < rows[j].recencyDays ==> rows[i].rScore >= rows[j].rScore)
  {
    CustomersHaveTransactions(txs);
    var aggs, date := Aggregate(txs), AnalysisDate(txs);
    assert CustomerTable(txs) == ScoreRows(aggs, date);
    ScoreRowsMonotone(aggs, date, i, j);
  }

  /** Two customers who both bought at the last timestamp: recency ties at
      zero days, the second in row order ranks 2 of 2 and scores R = 1. */
  lemma TiedRecencyCanScoreOne()
    ensures var rec := [0, 0];
            Rank(rec, 0) == 1 && Rank(rec, 1) == 2
            && RecencyScore(Rank(rec, 0), 2) == 5 && RecencyScore(Rank(rec, 1), 2) == 1
  {
    var rec := [0, 0];
    assert CountPreceding(rec, 1, 1) == 1;
    assert Bucket(2, 2) == 4;
  }

  function RowRevenue(c: CustomerRow): int {
    c.totalRevenue
  }

  function RowTransactions(c: CustomerRow): int {
    c.totalTransactions
  }

  lemma ScoreRowsTotals(aggs: seq<CustomerAggregate>, analysisDate: int)
    requires |aggs| >= 2
    ensures Sum(ScoreRows(aggs, analysisDate), RowRevenue) == Sum(aggs, RevenueOf)
    ensures Sum(ScoreRows(aggs, analysisDate), RowTransactions) == Sum(aggs, TransactionsOf)
  {
    var rows := ScoreRows(aggs, analysisDate);
    forall i | 0 <= i < |rows|
      ensures RowRevenue(rows[i]) == RevenueOf(aggs[i])
      ensures RowTransactions(rows[i]) == TransactionsOf(aggs[i])
    {
      assert ScoredFrom(aggs, analysisDate, i, rows[i]);
    }
    SumPointwise(rows, RowRevenue, aggs, RevenueOf);
    SumPointwise(rows, RowTransactions, aggs, TransactionsOf);
  }

  /** The table accounts for every transaction once: its revenues add up to
      the revenue of the transactions and its line-item counts to their
      number. */
  lemma CustomerTableTotals(txs: seq<Transaction>)
    requires |CustomerIds(txs)| >= 2
    ensures Sum(CustomerTable(txs), RowRevenue) == Sum(txs, AmountOf)
    ensures Sum(CustomerTable(txs), RowTransactions) == |txs|
  {
    CustomersHaveTransactions(txs);
    ScoreRowsTotals(Aggregate(txs), AnalysisDate(txs));
    AggregateTotals(txs);
  }
}
