/** The cleaning stage: the loaded table is passed through a chain of row
    filters, gets its missing descriptions filled and its calculated columns
    added, loses exact duplicate rows and is sorted by customer and time. Its
    output is the input of the customer segmentation. */
module Cleaning {
  import opened Records
  import opened Seqs
  import Calendar

  const NoDescription := "NO DESCRIPTION"

  // ---------------------------------------------------------------------------
  // Row predicates of the filters

  predicate HasCustomerId(r: RawRow) {
    r.customerId.Some?
  }

  /** The invoice number, as a string, starts with 'C'. */
  predicate IsCancellation(r: RawRow) {
    |r.invoice| > 0 && r.invoice[0] == 'C'
  }

  predicate NotCancellation(r: RawRow) {
    !IsCancellation(r)
  }

  predicate HasPositiveQuantityAndPrice(r: RawRow) {
    r.quantity > 0 && r.price > 0
  }

  // ---------------------------------------------------------------------------
  // Row transformations

  /** A missing description becomes "NO DESCRIPTION"; a present one and every
      other column are left alone. */
  function FillDescription(r: RawRow): (f: RawRow)
    ensures f.description.Some?
    ensures r.description.Some? ==> f == r
    ensures r.description.None? ==> f == r.(description := Some(NoDescription))
  {
    match r.description
    case None => r.(description := Some(NoDescription))
    case Some(_) => r
  }

  /** The row with its types converted and its calculated columns added. */
  function ToTransaction(r: RawRow): (t: Transaction)
    requires r.customerId.Some? && r.description.Some?
    ensures t.customerId == r.customerId.value && t.description == r.description.value
    ensures t.invoice == r.invoice && t.stockCode == r.stockCode && t.country == r.country
    ensures t.quantity == r.quantity && t.price == r.price && t.invoiceDate == r.invoiceDate
    ensures t.totalAmount == r.quantity * r.price
    ensures HasPositiveQuantityAndPrice(r) ==> t.totalAmount > 0
    ensures t.date == Calendar.DayNumber(r.invoiceDate)
    ensures 1 <= t.month <= 12
    ensures var d := Calendar.DateOf(r.invoiceDate);
            t.year == d.year && t.month == d.month && t.yearMonth == Calendar.MonthIndex(d)
  {
    var d := Calendar.DateOf(r.invoiceDate);
    assert r.quantity > 0 && r.price > 0 ==> r.quantity * r.price > 0;
    Transaction(
      r.invoice, r.stockCode, r.description.value, r.quantity, r.invoiceDate, r.price,
      r.customerId.value, r.country,
      r.quantity * r.price, d.year, d.month, Calendar.MonthIndex(d), Calendar.DayNumber(r.invoiceDate))
  }

  // ---------------------------------------------------------------------------
  // Final order

  /** Sort order: by Customer ID, then by InvoiceDate. */
  predicate KeyLeq(a: Transaction, b: Transaction) {
    a.customerId < b.customerId || (a.customerId == b.customerId && a.invoiceDate <= b.invoiceDate)
  }

  predicate SortedByCustomerAndDate(s: seq<Transaction>) {
    forall i, j :: 0 <= i < j < |s| ==> KeyLeq(s[i], s[j])
  }

  /** The first row of a sorted table is a lower bound of the rest. */
  lemma SortedHead(s: seq<Transaction>)
    requires SortedByCustomerAndDate(s) && s != []
    ensures forall x :: x in multiset(s) ==> KeyLeq(s[0], x)
  {
    forall x | x in multiset(s)
      ensures KeyLeq(s[0], x)
    {
      var j :| 0 <= j < |s| && s[j] == x;
    }
  }

  lemma SortedCons(x: Transaction, s: seq<Transaction>)
    requires SortedByCustomerAndDate(s)
    requires forall y :: y in multiset(s) ==> KeyLeq(x, y)
    ensures SortedByCustomerAndDate([x] + s)
  {
    assert forall j :: 0 <= j < |s| ==> s[j] in multiset(s);
  }

  /** Inserts `t` after every row whose key is not larger. */
  function InsertByKey(s: seq<Transaction>, t: Transaction): (r: seq<Transaction>)
    requires SortedByCustomerAndDate(s)
    ensures SortedByCustomerAndDate(r)
    ensures multiset(r) == multiset(s) + multiset{t}
  {
    if s == [] then [t]
    else
      SortedHead(s);
      if !KeyLeq(s[0], t) then
        SortedCons(t, s);
        [t] + s
      else
        assert s == [s[0]] + s[1..];
        var rest := InsertByKey(s[1..], t);
        SortedCons(s[0], rest);
        [s[0]] + rest
  }

  /** The table ordered by (Customer ID, InvoiceDate). */
  function SortByCustomerAndDate(s: seq<Transaction>): (r: seq<Transaction>)
    ensures SortedByCustomerAndDate(r)
    ensures multiset(r) == multiset(s)
  {
    if s == [] then []
    else
      assert s == s[..|s| - 1] + [s[|s| - 1]];
      InsertByKey(SortByCustomerAndDate(s[..|s| - 1]), s[|s| - 1])
  }

  // ---------------------------------------------------------------------------
  // The stages

  /** Boolean-mask selection: keeps the rows satisfying `keep`, in order. */
  method KeepRows(rows: seq<RawRow>, keep: RawRow -> bool) returns (kept: seq<RawRow>)
    ensures kept == Filter(rows, keep)
  {
    kept := [];
    for i := 0 to |rows|
      invariant kept == Filter(rows[..i], keep)
    {
      assert rows[..i + 1] == rows[..i] + [rows[i]];
      FilterSnoc(rows[..i], rows[i], keep);
      if keep(rows[i]) {
        kept := kept + [rows[i]];
      }
    }
    assert rows[..|rows|] == rows;
  }

  /** The Description column with missing values filled. */
  function FillAll(rows: seq<RawRow>): seq<RawRow> {
    seq(|rows|, i requires 0 <= i < |rows| => FillDescription(rows[i]))
  }

  /** Filling keeps the row count, and the filled table holds the filled form
      of every row and nothing else. */
  lemma FillAllRows(rows: seq<RawRow>)
    ensures |FillAll(rows)| == |rows|
    ensures forall f :: f in FillAll(rows) <==> exists r :: r in rows && f == FillDescription(r)
  {
    forall f | f in FillAll(rows)
      ensures exists r :: r in rows && f == FillDescription(r)
    {
      var i :| 0 <= i < |rows| && FillAll(rows)[i] == f;
      assert rows[i] in rows;
    }
    forall r | r in rows
      ensures FillDescription(r) in FillAll(rows)
    {
      var i :| 0 <= i < |rows| && rows[i] == r;
      assert FillAll(rows)[i] == FillDescription(r);
    }
  }

  /** The table with types converted and calculated columns added. */
  function ConvertAll(rows: seq<RawRow>): seq<Transaction>
    requires forall r :: r in rows ==> r.customerId.Some? && r.description.Some?
  {
    seq(|rows|, i requires 0 <= i < |rows| => ToTransaction(rows[i]))
  }

  /** Conversion maps row for row. */
  lemma ConvertAllRows(rows: seq<RawRow>)
    requires forall r :: r in rows ==> r.customerId.Some? && r.description.Some?
    ensures |ConvertAll(rows)| == |rows|
    ensures forall t :: t in ConvertAll(rows) <==> exists r :: r in rows && t == ToTransaction(r)
  {
    var c := ConvertAll(rows);
    forall t | t in c
      ensures exists r :: r in rows && t == ToTransaction(r)
    {
      var i :| 0 <= i < |rows| && c[i] == t;
      assert rows[i] in rows;
    }
    forall r | r in rows
      ensures ToTransaction(r) in c
    {
      var i :| 0 <= i < |rows| && rows[i] == r;
      assert c[i] == ToTransaction(r);
    }
  }

  /** Overwrites the Description column with missing values filled. */
  method FillMissingDescriptions(rows: seq<RawRow>) returns (filled: seq<RawRow>)
    ensures filled == FillAll(rows)
  {
    filled := [];
    for i := 0 to |rows|
      invariant |filled| == i
      invariant forall k :: 0 <= k < i ==> filled[k] == FillDescription(rows[k])
    {
      filled := filled + [FillDescription(rows[i])];
    }
  }


  /** Converts Customer ID to an integer and adds TotalAmount, Year, Month,
      YearMonth and Date. */
  method ConvertAndDerive(rows: seq<RawRow>) returns (txs: seq<Transaction>)
    requires forall r :: r in rows ==> r.customerId.Some? && r.description.Some?
    ensures txs == ConvertAll(rows)
  {
    txs := [];
    for i := 0 to |rows|
      invariant |txs| == i
      invariant forall k :: 0 <= k < i ==> txs[k] == ToTransaction(rows[k])
    {
      txs := txs + [ToTransaction(rows[i])];
    }
  }

  /** Keeps the first occurrence of every distinct row. */
  method DropDuplicates(txs: seq<Transaction>) returns (unique: seq<Transaction>)
    ensures unique == Dedup(txs)
  {
    unique := [];
    for i := 0 to |txs|
      invariant unique == Dedup(txs[..i])
    {
      assert txs[..i + 1][..i] == txs[..i];
      if txs[i] !in unique {
        unique := unique + [txs[i]];
      }
    }
    assert txs[..|txs|] == txs;
  }

  /** A loaded row survives cleaning when it has a Customer ID, is not a
      cancellation and has a positive quantity and price. */
  predicate Survives(r: RawRow) {
    HasCustomerId(r) && NotCancellation(r) && HasPositiveQuantityAndPrice(r)
  }

  /** The cleaned row a surviving loaded row becomes. */
  function Cleaned(r: RawRow): Transaction
    requires HasCustomerId(r)
  {
    ToTransaction(FillDescription(r))
  }

  /** The rows that reach the type conversion: with a Customer ID, description
      filled, not cancelled, positive quantity and price. */
  function ValidRows(raw: seq<RawRow>): (valid: seq<RawRow>)
    ensures |valid| <= |raw|
    ensures forall f :: f in valid ==> f.customerId.Some? && f.description.Some?
    ensures forall f :: f in valid <==> exists r :: r in raw && Survives(r) && f == FillDescription(r)
  {
    var withId := Filter(raw, HasCustomerId);
    FillAllRows(withId);
    Filter(Filter(FillAll(withId), NotCancellation), HasPositiveQuantityAndPrice)
  }

  /** The cleaned table, stage by stage: sorted by customer and date, with
      no row twice. */
  function CleanedTable(raw: seq<RawRow>): (clean: seq<Transaction>)
    ensures SortedByCustomerAndDate(clean) && Distinct(clean)
  {
    var unique := Dedup(ConvertAll(ValidRows(raw)));
    DistinctPermutation(unique, SortByCustomerAndDate(unique));
    SortByCustomerAndDate(unique)
  }

  /** The whole cleaning pipeline, as the table is rebound step by step. */
  method CleanTransactions(raw: seq<RawRow>) returns (clean: seq<Transaction>)
    ensures clean == CleanedTable(raw)
    ensures SortedByCustomerAndDate(clean) && Distinct(clean)
  {
    var rows := KeepRows(raw, HasCustomerId);
    rows := FillMissingDescriptions(rows);
    rows := KeepRows(rows, NotCancellation);
    rows := KeepRows(rows, HasPositiveQuantityAndPrice);
    assert rows == ValidRows(raw);
    var txs := ConvertAndDerive(rows);
    txs := DropDuplicates(txs);
    clean := SortByCustomerAndDate(txs);
  }

  /** A permutation of a table without repeated rows has none either. */
  lemma DistinctPermutation(a: seq<Transaction>, b: seq<Transaction>)
    requires Distinct(a) && multiset(a) == multiset(b)
    ensures Distinct(b)
  {
    forall i, j | 0 <= i < j < |b|
      ensures b[i] != b[j]
    {
      if b[i] == b[j] {
        var x := b[i];
        assert b == b[..i] + [x] + b[i + 1..j] + [x] + b[j + 1..];
        assert multiset(b)[x] >= 2;
        DistinctCount(a, x);
      }
    }
  }

  lemma {:induction false} DistinctCount(a: seq<Transaction>, x: Transaction)
    requires Distinct(a)
    ensures multiset(a)[x] <= 1
  {
    if a != [] {
      var n := |a| - 1;
      assert a == a[..n] + [a[n]];
      DistinctCount(a[..n], x);
      if a[n] == x {
        assert x !in a[..n];
      }
    }
  }

  /** The converted, de-duplicated rows are the cleaned forms of the
      surviving rows. */
  lemma UniqueRows(raw: seq<RawRow>, t: Transaction)
    ensures t in Dedup(ConvertAll(ValidRows(raw))) <==>
              exists r :: r in raw && Survives(r) && t == Cleaned(r)
  {
    var valid := ValidRows(raw);
    ConvertAllRows(valid);
    if exists r :: r in raw && Survives(r) && t == Cleaned(r) {
      var r :| r in raw && Survives(r) && t == Cleaned(r);
      assert FillDescription(r) in valid;
    }
  }

  /** The cleaned table holds exactly the cleaned forms of the surviving
      loaded rows: nothing that fails a filter, nothing else dropped. */
  lemma CleanedTableRows(raw: seq<RawRow>)
    ensures forall t :: t in CleanedTable(raw) <==>
              exists r :: r in raw && Survives(r) && t == Cleaned(r)
  {
    var unique := Dedup(ConvertAll(ValidRows(raw)));
    var clean := CleanedTable(raw);
    forall t
      ensures t in clean <==> exists r :: r in raw && Survives(r) && t == Cleaned(r)
    {
      assert t in clean <==> t in multiset(clean);
      assert t in unique <==> t in multiset(unique);
      UniqueRows(raw, t);
    }
  }

  /** Cleaning never adds rows. */
  lemma CleanedTableSize(raw: seq<RawRow>)
    ensures |CleanedTable(raw)| <= |raw|
  {
    var converted := ConvertAll(ValidRows(raw));
    assert |multiset(CleanedTable(raw))| == |multiset(Dedup(converted))|;
  }

  /** Every cleaned row has a positive quantity, price and TotalAmount, is not
      a cancellation and has a month in 1..12. */
  lemma CleanedRowsValid(raw: seq<RawRow>, t: Transaction)
    requires t in CleanedTable(raw)
    ensures t.quantity > 0 && t.price > 0 && t.totalAmount > 0
    ensures !(|t.invoice| > 0 && t.invoice[0] == 'C')
    ensures 1 <= t.month <= 12
  {
    CleanedTableRows(raw);
  }
}
