# Repeat versus one-time buyers, and the cleaning that feeds it

This project models two batch table transformations of an e-commerce analytics
pipeline, over sequences of records. Money is integer pence and timestamps are
integer seconds.

1. **Transaction cleaning** (`Cleaning`). The loaded rows go through a chain of
   filters:
   - drop rows with no Customer ID;
   - fill missing descriptions with "NO DESCRIPTION";
   - drop invoices starting with 'C';
   - keep rows with a positive quantity and price.

   The surviving rows then have their types converted and TotalAmount, Year,
   Month, YearMonth and Date derived. Exact duplicates are dropped, keeping
   the first occurrence, and the table is sorted by (Customer ID,
   InvoiceDate). The filter, fill, conversion and de-duplication stages are
   each a method that threads the table through a loop, proved equal to a
   specification function. The sort is a recursive insertion sort on the
   sequence (`SortByCustomerAndDate`). The pipeline
   `CleanTransactions` is proved to produce exactly the cleaned forms of the
   surviving rows, sorted and without repeats.

2. **Customer segmentation** (`Aggregation`, `Ranking`, `Segments`,
   `CustomerAnalysis`, `CustomerSummaries`). The cleaned table is grouped per
   Customer ID into one row per customer, in ascending ID order. Each row
   holds:
   - the number of distinct invoices;
   - the first and last purchase;
   - the revenue and the line-item count.

   The script then adds columns one step at a time:
   - the order-count segment and the binary one-time/repeat type;
   - lifetime and recency in whole days;
   - the R, F and M quintile scores of the ordinal ranks;
   - the three-digit RFM score string and the qualitative RFM segment.

   Each step is a method proved equal to the column it adds. The summaries
   count customers and add up revenue per segment, per type and per RFM
   segment, and the RFM summary is re-ordered by revenue. The repeat buyers
   get their days per order.

3. **New versus repeat transactions** (`BuyerTrend`). Each transaction is
   tagged "New Customer" exactly when its timestamp equals its customer's first
   purchase. The tagged table is grouped by (calendar month, buyer type)
   into unique customers, revenue and distinct orders.

Supporting modules:
- `Seqs`: filtering, grouping and sums over sequences, with de-duplication.
- `Calendar`: the proleptic Gregorian calendar on day numbers, which gives
  the whole-day differences and the monthly period of a timestamp.
- `Records`: the loaded and cleaned row types.

**Scoring rule.** The ranks are ordinal: ties are broken by row order, so by
ascending Customer ID. Cutting the ranks 1..n at equal quantiles puts rank
r in bucket 0 when r = 1, and otherwise in bucket ceil(5(r-1)/(n-1)) - 1.
Recency labels run 5..1 and frequency and monetary labels run 1..5. With a
single customer every cut edge coincides and no buckets can be formed, so
`AnalyzeCustomers` returns `Failure(TooFewCustomers)` when there are fewer
than two customers.

**Recency ties.** The code ranks recency with `method='first'`, so among
customers tied at zero days only the one with the lowest Customer ID is sure
to score R = 5. The model proves that guarantee: that customer's row holds
recency rank 1 and scores R = 5 (`LowestZeroDayCustomerScoresFive`). It
also shows that a second customer who bought at the very last timestamp can
score R = 1 (`TiedRecencyCanScoreOne`). A reading in which every customer
whose only purchase is at the last timestamp scores 5 does not hold of the
code, and the model follows the code.

**Segment "Loyal Customer (10+ orders)".** Exactly 10 orders is classified
Regular, as the thresholds are written (`ClassifyCustomer`).

## Model

| member | source | states |
|---|---|---|
| `Cleaning.KeepRows` | 01_data_cleaning.py:53 | a boolean-mask filter keeps exactly the rows satisfying its predicate, in order (used for the missing-ID, cancellation and quantity/price filters) |
| `Cleaning.FillDescription` | 01_data_cleaning.py:62 | a missing description becomes "NO DESCRIPTION"; a present one and every other column stay unchanged |
| `Cleaning.FillMissingDescriptions` | 01_data_cleaning.py:62 | the loop fills every row of the table, row for row |
| `Cleaning.FillAllRows` | 01_data_cleaning.py:62 | filling keeps the row count and maps every row and only those rows |
| `Cleaning.ToTransaction` | 01_data_cleaning.py:80-91 | conversion keeps every loaded column; TotalAmount is Quantity × Price, so positive when both are; Date is the InvoiceDate's day number; Year, Month (1..12) and YearMonth are those of the InvoiceDate's calendar date |
| `Cleaning.ConvertAndDerive` | 01_data_cleaning.py:80-91 | the loop converts the table row for row |
| `Cleaning.ConvertAllRows` | 01_data_cleaning.py:80-91 | conversion keeps the row count and maps exactly the rows given |
| `Cleaning.DropDuplicates` | 01_data_cleaning.py:97 | the loop keeps the first occurrence of every distinct row (its specification `Seqs.Dedup` is characterised below) |
| `Seqs.Dedup` | 01_data_cleaning.py:97 | de-duplication leaves no repeated row, keeps every distinct row of the input and adds none, and never lengthens the table |
| `Seqs.DedupKeepsFirstOccurrenceOrder` | 01_data_cleaning.py:97 | the kept rows come in the order of their first occurrences in the input |
| `Seqs.DedupIsSubsequence` | 01_data_cleaning.py:97 | the de-duplicated rows are a subsequence of the input |
| `Seqs.Filter` | 01_data_cleaning.py:53-74 | a boolean-mask selection never lengthens the table and keeps exactly the rows satisfying its predicate |
| `Seqs.FilterCounts` | 01_data_cleaning.py:53 | a filter keeps every copy of a row satisfying its predicate and no copy of any other row |
| `Seqs.FilterPositions` | 01_data_cleaning.py:67 | the kept rows sit at increasing positions of the input, each satisfying the predicate |
| `Seqs.FilterIsSubsequence` | 01_data_cleaning.py:74 | the filtered rows keep their relative order |
| `Cleaning.SortByCustomerAndDate` | 01_data_cleaning.py:102-103 | the result is sorted by (Customer ID, InvoiceDate) and is a permutation of the input |
| `Cleaning.ValidRows` | 01_data_cleaning.py:53-74 | after the three filters and the fill, the rows are exactly the filled forms of rows with an ID, not cancelled, with positive quantity and price |
| `Cleaning.CleanTransactions` | 01_data_cleaning.py:50-103 | the whole stage chain yields the cleaned table, sorted by (Customer ID, InvoiceDate), with no repeated row |
| `Cleaning.CleanedTableRows` | 01_data_cleaning.py:50-103 | a row is in the cleaned table exactly when it is the cleaned form of a surviving loaded row |
| `Cleaning.CleanedTableSize` | 01_data_cleaning.py:50-103 | cleaning never adds rows |
| `Cleaning.CleanedRowsValid` | 01_data_cleaning.py:67-91 | every cleaned row has positive quantity, price and TotalAmount, is not a cancellation, and has a month in 1..12 |
| `Cleaning.CleanedTable` | 01_data_cleaning.py:50-103 | the cleaned table, stage by stage, is sorted by (Customer ID, InvoiceDate) and holds no row twice |
| `Cleaning.DistinctPermutation` | 01_data_cleaning.py:97-102 | sorting a table without repeated rows leaves none |
| `Calendar.ElapsedDays` | 03_repeat_vs_onetime_buyers.py:131-133 | `.dt.days` of a time difference: the whole days in it, rounding down; non-negative for a non-negative difference |
| `Calendar.CivilFromDays` | 01_data_cleaning.py:88-91 | the calendar date of a day number is a valid date that maps back to that day number |
| `Calendar.CivilFromDaysOfDaysFromCivil` | 01_data_cleaning.py:88-91 | every valid date is the date of its own day number, so date and day number are in bijection |
| `Calendar.DateOf` | 01_data_cleaning.py:88-91 | the date of a timestamp is the valid calendar date of the day it falls on (its day number is the timestamp's), so its month is 1..12 and its day 1..31 |
| `Calendar.MonthIndexMonotone` | 01_data_cleaning.py:90 | a later timestamp never falls in an earlier monthly period |
| `Aggregation.Invoices` | 03_repeat_vs_onetime_buyers.py:37 | the distinct invoices of a group (the `nunique` count is their number): at least 1 for a non-empty group and at most its size |
| `Aggregation.FirstPurchase` | 03_repeat_vs_onetime_buyers.py:38 | `min` of a group's timestamps: attained, and a lower bound |
| `Aggregation.LastPurchase` | 03_repeat_vs_onetime_buyers.py:38 | `max` of a group's timestamps: attained, and an upper bound |
| `Aggregation.CustomerIds` | 03_repeat_vs_onetime_buyers.py:36 | the groupby keys: every Customer ID that occurs, once, ascending |
| `Aggregation.AggregateCustomer` | 03_repeat_vs_onetime_buyers.py:36-45 | a customer's row: OrderCount is the number of distinct invoices among its transactions, TotalRevenue the sum of their TotalAmount, TotalTransactions their number; 1 <= OrderCount <= TotalTransactions; FirstPurchase <= LastPurchase, both attained by its transactions and bounding them |
| `Aggregation.PositiveRevenue` | 03_repeat_vs_onetime_buyers.py:39 | when every line amount is positive, every customer's TotalRevenue is positive |
| `Seqs.SumPositive` | 03_repeat_vs_onetime_buyers.py:39 | a non-empty column of positive amounts has a positive sum |
| `Aggregation.Aggregate` | 03_repeat_vs_onetime_buyers.py:36-45 | one aggregate row per key, in key order |
| `Aggregation.AggregateRows` | 03_repeat_vs_onetime_buyers.py:36-45 | exactly one row per customer that occurs, in strictly ascending ID order |
| `Aggregation.AggregateTotals` | 03_repeat_vs_onetime_buyers.py:39 | the customers' TotalRevenue adds up to the table's TotalAmount, and their TotalTransactions to the number of line items |
| `Ranking.Rank` | 03_repeat_vs_onetime_buyers.py:158 | an ordinal rank lies in 1..n |
| `Ranking.RankOrder` | 03_repeat_vs_onetime_buyers.py:158 | rank i < rank j exactly when row i has the smaller value, or an equal value in an earlier row |
| `Ranking.RankInjective` | 03_repeat_vs_onetime_buyers.py:158 | distinct rows have distinct ranks |
| `Ranking.RanksArePermutation` | 03_repeat_vs_onetime_buyers.py:158-163 | every rank 1..n is taken by some row, so the ranks are a permutation of 1..n |
| `Ranking.Bucket` | 03_repeat_vs_onetime_buyers.py:158-163 | the quintile bucket 0..4 of a rank lies between the cut edges around it |
| `Ranking.BucketIsQuintile` | 03_repeat_vs_onetime_buyers.py:158-163 | the bucket is the one interval of the equal-quantile cut that holds the rank |
| `Ranking.BucketMonotone` | 03_repeat_vs_onetime_buyers.py:158-163 | a higher rank never falls in a lower bucket |
| `Ranking.BucketEnds` | 03_repeat_vs_onetime_buyers.py:158-163 | rank 1 falls in the first bucket and rank n in the last |
| `Ranking.RecencyScore` | 03_repeat_vs_onetime_buyers.py:158-159 | the R label of a rank is 5, 4, 3, 2, 1 for the quintile (0..4) of the equal-quantile cut that holds the rank |
| `Ranking.AscendingScore` | 03_repeat_vs_onetime_buyers.py:160-163 | the F and M label of a rank is 1..5 for the quintile (0..4) of the equal-quantile cut that holds the rank |
| `Ranking.EdgeStep` | 03_repeat_vs_onetime_buyers.py:158-163 | consecutive cut edges floor(c(n-1)/5) lie between 0 and n-1 and differ by floor((n-1)/5) or one more |
| `Ranking.BucketByEdges` | 03_repeat_vs_onetime_buyers.py:158-163 | a rank is in bucket b exactly when it lies between the integer cut edges b and b+1 |
| `Ranking.BucketMembersCount` | 03_repeat_vs_onetime_buyers.py:158-163 | among ranks 1..k, bucket b holds exactly those past cut edge b (for b > 0) and up to cut edge b+1, so their number is the gap between the two edges capped at k |
| `Ranking.BucketSize` | 03_repeat_vs_onetime_buyers.py:158-163 | every quintile holds floor((n-1)/5) or floor((n-1)/5) + 1 of the n ranks |
| `Ranking.BucketsBalanced` | 03_repeat_vs_onetime_buyers.py:158-163 | any two quintiles differ in size by at most one |
| `Ranking.ScoresMonotone` | 03_repeat_vs_onetime_buyers.py:158-163 | scores lie in 1..5; F and M labels never fall and R labels never rise as the rank grows; the ends score 5/1 and 1/5 |
| `Segments.ClassifyCustomer` | 03_repeat_vs_onetime_buyers.py:55-65 | 1 is One-Time, 2 Two-Time, 3..5 Occasional, 6..10 Regular, 11 and above Loyal, as an if-and-only-if for each segment |
| `Segments.ClassifyMonotone` | 03_repeat_vs_onetime_buyers.py:55-65 | more orders never give a lower segment |
| `Segments.SegmentLabelsDistinct` | 03_repeat_vs_onetime_buyers.py:55-65 | different segments carry different labels |
| `Segments.CustomerTypeOf` | 03_repeat_vs_onetime_buyers.py:70-72 | One-Time Buyer exactly when OrderCount is 1 |
| `Segments.TypeAgreesWithSegment` | 03_repeat_vs_onetime_buyers.py:67-72 | the binary type is One-Time exactly when the segment is One-Time, under the same label |
| `Segments.RfmScore` | 03_repeat_vs_onetime_buyers.py:166-168 | the RFM score is three characters, each in '1'..'5' |
| `Segments.ScoreDigit` | 03_repeat_vs_onetime_buyers.py:166-168 | `astype(str)` of a score 1..5 is the digit with that value |
| `Segments.DigitScore` | 03_repeat_vs_onetime_buyers.py:166-168 | a digit '1'..'5' reads back as its score, and nothing else reads |
| `Segments.ParseRfmScore` | 03_repeat_vs_onetime_buyers.py:166-168 | a string reads as a score triple exactly when it is three digits 1..5 |
| `Segments.RfmScoreRoundTrip` | 03_repeat_vs_onetime_buyers.py:166-168 | the score string reads back as R, F and M in that order |
| `Segments.ParseRfmScoreInverse` | 03_repeat_vs_onetime_buyers.py:166-168 | every string that reads is the score string of what it reads |
| `Segments.CategorizeRfm` | 03_repeat_vs_onetime_buyers.py:171-181 | first match wins: Champions iff F >= 4 and M >= 4 (whatever R), Loyal Customers, Potential Loyalists, At Risk and Lost each iff its rule holds and no earlier one does |
| `Segments.CategorizeRecencyMonotone` | 03_repeat_vs_onetime_buyers.py:171-181 | a better recency never gives a worse segment, and recency is ignored once F >= 3 and M >= 3 |
| `CustomerAnalysis.AnalysisDate` | 03_repeat_vs_onetime_buyers.py:153 | the analysis date is the table's last timestamp: attained and an upper bound |
| `CustomerAnalysis.RecencyColumn` | 03_repeat_vs_onetime_buyers.py:154 | Recency_Days is the whole days from each last purchase to the analysis date |
| `CustomerAnalysis.AddSegments` | 03_repeat_vs_onetime_buyers.py:67-72 | the loop adds each row's segment and binary type from its order count |
| `CustomerAnalysis.AddLifetimes` | 03_repeat_vs_onetime_buyers.py:131-133 | the loop adds each row's lifetime as whole days from first to last purchase |
| `CustomerAnalysis.AddRecency` | 03_repeat_vs_onetime_buyers.py:153-154 | the loop adds the Recency_Days column |
| `CustomerAnalysis.AddScores` | 03_repeat_vs_onetime_buyers.py:158-163 | the loop adds R, F and M as the quintile labels of the ordinal ranks of recency, order count and revenue |
| `CustomerAnalysis.AddRfm` | 03_repeat_vs_onetime_buyers.py:166-183 | the loops add each row's RFM score string and RFM segment from its three scores |
| `CustomerAnalysis.ScoredRow` | 03_repeat_vs_onetime_buyers.py:67-183 | a scored row carries its aggregate row's figures, its segment, type, lifetime and recency; its R, F and M are the labels of the quintiles holding its recency, order-count and revenue ranks; its RFM score string and RFM segment are those of its scores |
| `CustomerAnalysis.ScoreRows` | 03_repeat_vs_onetime_buyers.py:67-183 | every row of the scored table is, in that sense, the scored form of the aggregate row at its position |
| `CustomerAnalysis.CustomerTable` | 03_repeat_vs_onetime_buyers.py:36-183 | the finished table has one row per customer in ascending ID order, holding that customer's distinct-invoice count, revenue and line-item count, with recency from the table's last timestamp |
| `CustomerAnalysis.TableFigures` | 03_repeat_vs_onetime_buyers.py:36-45 | each scored row holds its customer's figures computed from the transactions |
| `CustomerAnalysis.ScoreCustomers` | 03_repeat_vs_onetime_buyers.py:67-183 | the column-by-column steps build exactly the scored table |
| `CustomerAnalysis.AnalyzeCustomers` | 03_repeat_vs_onetime_buyers.py:36-183 | the analysis fails exactly when there are fewer than two customers (the cut cannot be formed), and otherwise yields the customer table |
| `CustomerAnalysis.CustomerRowFacts` | 03_repeat_vs_onetime_buyers.py:36-183 | every row is the i-th customer's, with 1 <= OrderCount <= TotalTransactions, non-negative lifetime and recency, scores in 1..5 spelled out by its RFM score, and labels given by its order count and scores |
| `CustomerAnalysis.LastPurchaseBeforeAnalysisDate` | 03_repeat_vs_onetime_buyers.py:153-154 | no last purchase is after the analysis date, so recency is never negative |
| `CustomerAnalysis.CurrentCustomer` | 03_repeat_vs_onetime_buyers.py:153-154 | the owner of the last timestamp has a row whose last purchase is the analysis date |
| `CustomerAnalysis.ScoreRowsCurrent` | 03_repeat_vs_onetime_buyers.py:154-159 | the row ranked first on recency (rank 1) has zero days of recency and scores R = 5 |
| `CustomerAnalysis.MostRecentScoresFive` | 03_repeat_vs_onetime_buyers.py:153-159 | some customer with zero days of recency scores R = 5 |
| `CustomerAnalysis.FirstZeroRanksFirst` | 03_repeat_vs_onetime_buyers.py:158 | in a column of non-negative values, the first zero holds ordinal rank 1 |
| `CustomerAnalysis.FirstZeroDayRowScoresFive` | 03_repeat_vs_onetime_buyers.py:153-159 | the first scored row with zero days of recency holds recency rank 1 and scores R = 5 |
| `CustomerAnalysis.LowestZeroDayCustomerScoresFive` | 03_repeat_vs_onetime_buyers.py:153-159 | among the customers with zero days of recency, the one with the lowest Customer ID scores R = 5 |
| `CustomerAnalysis.TiedRecencyCanScoreOne` | 03_repeat_vs_onetime_buyers.py:158-159 | two customers tied at zero days rank 1 and 2 and score R = 5 and R = 1 |
| `CustomerAnalysis.ScoresFollowColumns` | 03_repeat_vs_onetime_buyers.py:158-163 | a row that precedes another in a column's rank order has an R score at least as high and F and M scores at most as high |
| `CustomerAnalysis.ScoresMonotoneInTable` | 03_repeat_vs_onetime_buyers.py:153-163 | in the table, more orders never give a lower F, more revenue never a lower M, and more days of recency never a higher R |
| `CustomerAnalysis.CustomerTableTotals` | 03_repeat_vs_onetime_buyers.py:36-45 | the table's revenues add up to the revenue of all transactions, and its line-item counts to their number |
| `CustomerSummaries.Summarize` | 03_repeat_vs_onetime_buyers.py:85-88 | a groupby lists only the groups that occur, each with its customer count and the revenue sum of its rows, and every group that occurs |
| `CustomerSummaries.SummarizeFollowsKeys` | 03_repeat_vs_onetime_buyers.py:85-88 | the summary rows come in the order of the keys |
| `CustomerSummaries.SummaryKeysDistinct` | 03_repeat_vs_onetime_buyers.py:85-88 | over distinct keys no two summary rows share a key |
| `CustomerSummaries.SummaryCoversRows` | 03_repeat_vs_onetime_buyers.py:85-88 | when every row's key is listed, each row's key has its summary row |
| `CustomerSummaries.SegmentSummary` | 03_repeat_vs_onetime_buyers.py:85-88 | one row per segment that occurs, none twice, with the number of customers in it and their revenue |
| `CustomerSummaries.TypeSummary` | 03_repeat_vs_onetime_buyers.py:103-108 | one row per customer type that occurs, none twice, with the number of customers of that type and their revenue |
| `CustomerSummaries.RfmSummary` | 03_repeat_vs_onetime_buyers.py:185-187 | one row per RFM segment that occurs, none twice, with the number of customers in it and their revenue |
| `CustomerSummaries.SummaryPartition` | 03_repeat_vs_onetime_buyers.py:85-88 | with distinct keys covering every row, the customer counts add up to the number of customers and the revenues to their total |
| `CustomerSummaries.KeyOrdersCover` | 03_repeat_vs_onetime_buyers.py:75 | each key order lists every segment, type or RFM segment exactly once |
| `Seqs.LexLessTransitive` | 03_repeat_vs_onetime_buyers.py:75 | Python's string order is transitive |
| `Seqs.ChainAscending` | 03_repeat_vs_onetime_buyers.py:75 | labels that ascend step by step ascend pairwise |
| `CustomerSummaries.SegmentOrderAscending` | 03_repeat_vs_onetime_buyers.py:75 | segments are listed in ascending order of their labels, as `sort_index` and groupby list them: every earlier label is smaller than every later one |
| `CustomerSummaries.TypeAndRfmOrdersAscending` | 03_repeat_vs_onetime_buyers.py:103 | types and RFM segments are listed in ascending order of their labels: every earlier label is smaller than every later one |
| `CustomerSummaries.SegmentSummaryTotals` | 03_repeat_vs_onetime_buyers.py:206-217 | every customer falls in one segment: segment counts add up to the number of customers, and segment revenues to the revenue of all transactions |
| `CustomerSummaries.TypeSummaryTotals` | 03_repeat_vs_onetime_buyers.py:103-111 | the one-time and repeat counts add up to the number of customers, and their revenues to the total |
| `CustomerSummaries.RfmSummaryTotals` | 03_repeat_vs_onetime_buyers.py:185-188 | the RFM segment counts add up to the number of customers, and their revenues to the total |
| `CustomerSummaries.InsertByRevenue` | 03_repeat_vs_onetime_buyers.py:188 | inserting a summary row into rows ordered by revenue, largest first, keeps them so ordered and adds exactly that row |
| `CustomerSummaries.SortByRevenue` | 03_repeat_vs_onetime_buyers.py:188 | the rows reordered by revenue, largest first, as a permutation |
| `CustomerSummaries.RfmSummaryByRevenue` | 03_repeat_vs_onetime_buyers.py:185-188 | the RFM summary is listed by revenue, largest first, and holds exactly the RFM summary's rows |
| `CustomerSummaries.DaysPerOrder` | 03_repeat_vs_onetime_buyers.py:137-139 | days per order times the order gaps (at least 1 for a repeat buyer) is the lifetime, and lies between 0 and the lifetime |
| `CustomerSummaries.RepeatOf` | 03_repeat_vs_onetime_buyers.py:136-139 | the repeat buyers are exactly the rows with more than one order, each with its days per order |
| `CustomerSummaries.SelectRepeatCustomers` | 03_repeat_vs_onetime_buyers.py:136-139 | the loop selects the repeat buyers in table order and adds their days per order |
| `CustomerSummaries.RepeatDaysPerOrderBounded` | 03_repeat_vs_onetime_buyers.py:131-139 | in the customer table, every repeat buyer's days per order lies between 0 and its lifetime |
| `BuyerTrend.FirstPurchaseOf` | 03_repeat_vs_onetime_buyers.py:242-243 | a customer's first purchase timestamp is attained by one of its transactions and bounds them all from below |
| `BuyerTrend.FirstPurchaseTable` | 03_repeat_vs_onetime_buyers.py:242-243 | the per-customer minimum table has exactly the customers that occur as keys, each mapped to its first purchase |
| `BuyerTrend.EarliestComplete` | 03_repeat_vs_onetime_buyers.py:242-243 | once every row is taken into account, the running minimum is each customer's first purchase |
| `BuyerTrend.TagWith` | 03_repeat_vs_onetime_buyers.py:249-254 | IsFirstPurchase holds exactly when the timestamp equals the merged first purchase, and BuyerType is New exactly then |
| `BuyerTrend.Tag` | 03_repeat_vs_onetime_buyers.py:246-254 | a transaction is tagged New exactly when its timestamp is its customer's first purchase |
| `BuyerTrend.TagAll` | 03_repeat_vs_onetime_buyers.py:246-254 | the merge keeps every row in order, and tags each one |
| `BuyerTrend.TagTransactions` | 03_repeat_vs_onetime_buyers.py:242-254 | the merge-and-tag loop yields the tagged table |
| `BuyerTrend.NewExactlyWhenEarliest` | 03_repeat_vs_onetime_buyers.py:249-254 | a transaction is New exactly when no transaction of its customer is earlier |
| `BuyerTrend.EveryCustomerHasNewTransaction` | 03_repeat_vs_onetime_buyers.py:249-254 | every customer has at least one New transaction |
| `BuyerTrend.SameTimestampSameType` | 03_repeat_vs_onetime_buyers.py:249-254 | a customer's transactions at one timestamp share a tag, so ties on the first timestamp are all New |
| `BuyerTrend.NewInEarliestMonth` | 03_repeat_vs_onetime_buyers.py:249-257 | a customer's New transactions fall in its earliest month |
| `BuyerTrend.BuyerTypeLabelsAscending` | 03_repeat_vs_onetime_buyers.py:252-258 | "New Customer" sorts before "Repeat Customer", so the groupby lists new buyers first within a month |
| `BuyerTrend.TrendKeyDecodes` | 03_repeat_vs_onetime_buyers.py:257-258 | a group key gives back its month and buyer type |
| `BuyerTrend.TrendKeyInjective` | 03_repeat_vs_onetime_buyers.py:257-258 | two transactions share a group exactly when they share month and buyer type |
| `BuyerTrend.TrendCell` | 03_repeat_vs_onetime_buyers.py:257-264 | a group's row carries its month and buyer type, the number of distinct customers and of distinct invoices in the group (each 1 to the group size), and the group's revenue |
| `BuyerTrend.UntaggedColumns` | 03_repeat_vs_onetime_buyers.py:259-261 | the distinct customers and invoices of a group are those of its transactions, with the tag ignored |
| `BuyerTrend.TrendCellGroup` | 03_repeat_vs_onetime_buyers.py:257-258 | a group holds exactly the transactions of its month and buyer type |
| `BuyerTrend.TrendKeys` | 03_repeat_vs_onetime_buyers.py:257-262 | the groups the groupby emits: exactly those that occur, strictly ascending |
| `BuyerTrend.MonthlyTrend` | 03_repeat_vs_onetime_buyers.py:257-264 | one trend row per group that occurs, in key order |
| `BuyerTrend.MonthlyTrendOrdered` | 03_repeat_vs_onetime_buyers.py:257-264 | rows come by month, New before Repeat within a month, each pair at most once |
| `BuyerTrend.MonthlyTrendRevenue` | 03_repeat_vs_onetime_buyers.py:257-264 | the trend splits the revenue: its rows add up to the revenue of all transactions |

## Left out

- Reading and writing CSV and parquet files, and all printed output, in both scripts.
- Floating-point columns:
  - the means AvgTransactionValue, AvgRevenuePerCustomer and AvgOrdersPerCustomer;
  - the percentage shares (Customer_%, Revenue_%, RevenueShare_%) and `.round(2)`;
  - the median and the key metrics table (03_repeat_vs_onetime_buyers.py:283-317).

  Revenue is integer pence and only counts and sums are stated.
- `CustomerSummaries.DaysPerOrder`: an exact quotient, without the `.round(2)` rounding to two decimals.
- `pd.qcut`'s floating-point edges are replaced by the integer rank-to-bucket rule above. Edge cases that depend on float rounding are not modelled.
- Datetime parsing (`pd.to_datetime`) is not modelled: InvoiceDate is already an integer timestamp. The period-to-string conversion of YearMonth (03_repeat_vs_onetime_buyers.py:265) is not modelled: the month is an integer key (year * 12 + month - 1).
- The Customer ID float-to-int cast: a present ID is already an integer.
- Text conversion of Invoice: the invoice is already a string.
- The wide pivot of the monthly trend (03_repeat_vs_onetime_buyers.py:268-272), a layout step for plotting.
- The `segment_counts` merge (03_repeat_vs_onetime_buyers.py:206-217) is modelled by one groupby summary (counts and revenue per segment) rather than two tables joined on the label.
- Sort stability: `Cleaning.SortByCustomerAndDate` and `CustomerSummaries.SortByRevenue` are stable insertion sorts.
  - pandas' default sort does not promise an order among rows with equal keys, so the models fix one.
  - Their contracts promise only what pandas does: sorted, and a permutation.
- The dashboard (04_streamlit_dashboard.py) and the orchestration script (run_all_analysis.py) are not part of this model. 02_cohort_analysis.py is not part of this model.
