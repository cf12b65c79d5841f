/** The monthly report: the month picker, the month's sales and their
    totals, the best-selling products and the best customers (each list
    sorted and cut to five), and the low-stock list. */
module Reports {
  import opened Domain
  import opened Text
  import Lists
  import Catalog

  // ---------------------------------------------------------------------
  // The month picker

  /** The month selected when the screen opens: the "YYYY-MM" key of the
      current date, from which year and month read back. */
  function DefaultMonth(year: nat, month: int): (r: string)
    requires 1 <= month <= 12
    ensures r == MonthKey(year, month)
    ensures ParseMonthKey(r) == (year, month)
  {
    MonthKeyRoundTrip(year, month);
    MonthKey(year, month)
  }

  function MonthsOf(sales: seq<Sale>): (r: seq<string>)
    ensures |r| == |sales|
    ensures forall i :: 0 <= i < |sales| ==> r[i] == sales[i].month
  {
    seq(|sales|, i requires 0 <= i < |sales| => sales[i].month)
  }

  /** Strictly decreasing in the default string order. */
  predicate Descending(xs: seq<string>)
  {
    forall i, j :: 0 <= i < j < |xs| ==> StrLess(xs[j], xs[i])
  }

  /** Places `x` in a strictly decreasing list that does not hold it. */
  function InsertDescending(x: string, xs: seq<string>): (r: seq<string>)
    requires Descending(xs)
    requires forall i :: 0 <= i < |xs| ==> xs[i] != x
    ensures Descending(r)
    ensures multiset(r) == multiset(xs) + multiset{x}
    ensures forall i :: 0 <= i < |r| ==> r[i] == x || r[i] in xs
    decreases |xs|
  {
    if |xs| == 0 then [x]
    else if StrLess(xs[0], x) then
      InsertFirstDescending(x, xs);
      [x] + xs
    else
      StrLessTotal(x, xs[0]);
      var rest := InsertDescending(x, xs[1..]);
      InsertAfterDescending(x, xs, rest);
      assert xs == [xs[0]] + xs[1..];
      [xs[0]] + rest
  }

  lemma InsertFirstDescending(x: string, xs: seq<string>)
    requires Descending(xs) && |xs| > 0 && StrLess(xs[0], x)
    ensures Descending([x] + xs)
  {
    var r := [x] + xs;
    forall i, j | 0 <= i < j < |r| ensures StrLess(r[j], r[i]) {
      if i == 0 && j > 1 {
        StrLessTransitive(xs[j - 1], xs[0], x);
      }
    }
  }

  lemma InsertAfterDescending(x: string, xs: seq<string>, rest: seq<string>)
    requires Descending(xs) && |xs| > 0 && StrLess(x, xs[0])
    requires Descending(rest)
    requires forall i :: 0 <= i < |rest| ==> rest[i] == x || rest[i] in xs[1..]
    ensures Descending([xs[0]] + rest)
  {
    var r := [xs[0]] + rest;
    forall i, j | 0 <= i < j < |r| ensures StrLess(r[j], r[i]) {
      if i == 0 && rest[j - 1] != x {
        var m :| 0 <= m < |xs[1..]| && xs[1..][m] == rest[j - 1];
        assert xs[m + 1] == rest[j - 1];
      }
    }
  }

  /** Sorting a list without duplicates into strictly decreasing order. */
  function SortDescending(xs: seq<string>): (r: seq<string>)
    requires Lists.NoDuplicates(xs)
    ensures Descending(r)
    ensures multiset(r) == multiset(xs)
    decreases |xs|
  {
    if |xs| == 0 then []
    else
      NoDuplicatesTail(xs);
      var rest := SortDescending(xs[1..]);
      FirstNotInRest(xs, rest);
      InsertDescending(xs[0], rest)
  }

  lemma NoDuplicatesTail(xs: seq<string>)
    requires Lists.NoDuplicates(xs) && |xs| > 0
    ensures Lists.NoDuplicates(xs[1..])
  {
    var t := xs[1..];
    forall i, j | 0 <= i < j < |t| ensures t[i] != t[j] {
      assert t[i] == xs[i + 1] && t[j] == xs[j + 1];
    }
  }

  /** In a list without duplicates, the first element is not among the
      others, however they are rearranged; putting it back gives the
      whole list's elements. */
  lemma FirstNotInRest(xs: seq<string>, rest: seq<string>)
    requires Lists.NoDuplicates(xs) && |xs| > 0 && multiset(rest) == multiset(xs[1..])
    ensures forall i :: 0 <= i < |rest| ==> rest[i] != xs[0]
    ensures multiset(rest) + multiset{xs[0]} == multiset(xs)
  {
    forall i | 0 <= i < |rest| ensures rest[i] != xs[0] {
      assert rest[i] in multiset(xs[1..]);
      var m :| 0 <= m < |xs[1..]| && xs[1..][m] == rest[i];
      assert xs[m + 1] == rest[i];
    }
    assert xs == [xs[0]] + xs[1..];
  }

  /** `availableMonths`: every month that has a sale, once each, newest
      first (for "YYYY-MM" keys the string order is the calendar
      order). */
  function AvailableMonths(sales: seq<Sale>): (r: seq<string>)
    ensures Descending(r) && Lists.NoDuplicates(r)
    ensures forall k :: 0 <= k < |sales| ==> sales[k].month in r
    ensures forall i :: 0 <= i < |r| ==> r[i] in MonthsOf(sales)
  {
    var months := MonthsOf(sales);
    SortedDistinctSameElements(months);
    var r := SortDescending(Lists.Distinct(months));
    DescendingNoDuplicates(r);
    assert forall k :: 0 <= k < |sales| ==> sales[k].month == months[k];
    r
  }

  /** Sorting the distinct values loses and adds nothing. */
  lemma SortedDistinctSameElements(xs: seq<string>)
    ensures var r := SortDescending(Lists.Distinct(xs));
            (forall k :: 0 <= k < |xs| ==> xs[k] in r) && (forall i :: 0 <= i < |r| ==> r[i] in xs)
  {
    var d := Lists.Distinct(xs);
    var r := SortDescending(d);
    forall k | 0 <= k < |xs| ensures xs[k] in r {
      assert xs[k] in d;
      assert xs[k] in multiset(d);
      assert xs[k] in multiset(r);
    }
    forall i | 0 <= i < |r| ensures r[i] in xs {
      assert r[i] in multiset(r);
      assert r[i] in multiset(d);
      assert r[i] in d;
    }
  }

  lemma DescendingNoDuplicates(xs: seq<string>)
    requires Descending(xs)
    ensures Lists.NoDuplicates(xs)
  {
    forall i, j | 0 <= i < j < |xs| ensures xs[i] != xs[j] {
      if xs[i] == xs[j] {
        StrLessIrreflexive(xs[i]);
      }
    }
  }

  // ---------------------------------------------------------------------
  // The month's sales

  predicate InMonth(s: Sale, month: string)
  {
    s.month == month
  }

  /** `monthlySales`: the sales of the selected month, in list order. */
  function MonthlySales(sales: seq<Sale>, month: string): (r: seq<Sale>)
    ensures |r| <= |sales|
    ensures forall j :: 0 <= j < |r| ==> r[j] in sales && r[j].month == month
    ensures forall j :: 0 <= j < |sales| && sales[j].month == month ==> sales[j] in r
  {
    Lists.Filter(sales, s => InMonth(s, month))
  }

  /** A new sale (the sales list grows at the front) shows up at the top
      of its own month and leaves every other month as it was. */
  lemma NewSaleInItsMonth(sales: seq<Sale>, s: Sale, month: string)
    ensures MonthlySales([s] + sales, month)
            == (if s.month == month then [s] else []) + MonthlySales(sales, month)
  {
    Lists.FilterConcat([s], sales, x => InMonth(x, month));
  }

  /** `totalAmount`: the sum of the sales' totals. */
  function TotalAmount(sales: seq<Sale>): (r: real)
    ensures (forall j :: 0 <= j < |sales| ==> sales[j].total >= 0.0) ==> r >= 0.0
  {
    if |sales| == 0 then 0.0 else TotalAmount(sales[..|sales| - 1]) + sales[|sales| - 1].total
  }

  /** The amount of a list with one more sale in front grows by that
      sale's total. */
  lemma {:induction false} TotalAmountPrepend(s: Sale, sales: seq<Sale>)
    ensures TotalAmount([s] + sales) == s.total + TotalAmount(sales)
    decreases |sales|
  {
    if |sales| > 0 {
      var init := sales[..|sales| - 1];
      assert ([s] + sales)[..|sales|] == [s] + init;
      TotalAmountPrepend(s, init);
    }
  }

  function CustomerIds(sales: seq<Sale>): (r: seq<string>)
    ensures |r| == |sales|
    ensures forall i :: 0 <= i < |sales| ==> r[i] == sales[i].customerId
  {
    seq(|sales|, i requires 0 <= i < |sales| => sales[i].customerId)
  }

  /** `uniqueCustomers`: how many different customers bought, never more
      than the number of sales, and at least one when there is a sale. */
  function UniqueCustomers(sales: seq<Sale>): (n: nat)
    ensures n <= |sales|
    ensures |sales| > 0 ==> n >= 1
  {
    var d := Lists.Distinct(CustomerIds(sales));
    assert |sales| > 0 ==> CustomerIds(sales)[0] in d;
    |d|
  }

  // ---------------------------------------------------------------------
  // Best-selling products

  /** Position of the group of product `pid`, or -1. */
  function GroupIndex(groups: seq<SaleItem>, pid: string): (i: int)
    ensures -1 <= i < |groups|
    ensures i == -1 <==> forall j :: 0 <= j < |groups| ==> groups[j].productId != pid
    ensures 0 <= i ==> groups[i].productId == pid
  {
    if |groups| == 0 then -1
    else if groups[0].productId == pid then 0
    else
      var i := GroupIndex(groups[1..], pid);
      if i == -1 then -1 else i + 1
  }

  /** Money taken for product `pid` across the lines. */
  function AmountOf(items: seq<SaleItem>, pid: string): real
  {
    if |items| == 0 then 0.0
    else AmountOf(items[..|items| - 1], pid)
         + (if items[|items| - 1].productId == pid then items[|items| - 1].total else 0.0)
  }

  lemma {:induction false} AmountAbsent(items: seq<SaleItem>, pid: string)
    requires !Mentions(items, pid)
    ensures AmountOf(items, pid) == 0.0
  {
    if |items| > 0 {
      MentionsSplit(items);
      AmountAbsent(items[..|items| - 1], pid);
    }
  }

  /** One step of the `reduce`: the line joins its product's group
      (adding its quantity and total), or opens a new group. */
  function MergeLine(groups: seq<SaleItem>, item: SaleItem): seq<SaleItem>
  {
    var i := GroupIndex(groups, item.productId);
    if i == -1 then groups + [item]
    else groups[i := groups[i].(quantity := groups[i].quantity + item.quantity,
                                total := groups[i].total + item.total)]
  }

  /** One merge step opens a group exactly when the product had none,
      leaves every existing group in its place and every other product's
      group untouched, and the product has a group afterwards holding
      the line's units and money on top of what it held. */
  lemma MergeLineGroups(groups: seq<SaleItem>, item: SaleItem)
    ensures var r := MergeLine(groups, item);
            && |r| == (if GroupIndex(groups, item.productId) == -1 then |groups| + 1 else |groups|)
            && (forall k :: 0 <= k < |groups| ==> r[k].productId == groups[k].productId)
            && (forall k :: 0 <= k < |groups| && groups[k].productId != item.productId ==> r[k] == groups[k])
            && GroupIndex(r, item.productId) != -1
            && var g := GroupIndex(groups, item.productId);
               var j := if g == -1 then |groups| else g;
               r[j].productId == item.productId
               && r[j].quantity == item.quantity + (if g == -1 then 0 else groups[g].quantity)
               && r[j].total == item.total + (if g == -1 then 0.0 else groups[g].total)
  {
    var r := MergeLine(groups, item);
    var g := GroupIndex(groups, item.productId);
    if g == -1 {
      assert r[|groups|] == item;
    } else {
      assert r[g].productId == item.productId;
    }
  }

  /** No two groups share a product. */
  predicate DistinctGroups(groups: seq<SaleItem>)
  {
    forall i, j :: 0 <= i < j < |groups| ==> groups[i].productId != groups[j].productId
  }

  /** Every line's product has a group. */
  predicate CoversLines(items: seq<SaleItem>, groups: seq<SaleItem>)
  {
    forall k :: 0 <= k < |items| ==> GroupIndex(groups, items[k].productId) != -1
  }

  /** Every group is for a product some line sold. */
  predicate FromLines(items: seq<SaleItem>, groups: seq<SaleItem>)
  {
    forall k :: 0 <= k < |groups| ==> Mentions(items, groups[k].productId)
  }

  /** Every group holds the units and the money of all the lines for its
      product. */
  predicate Tallied(items: seq<SaleItem>, groups: seq<SaleItem>)
  {
    forall k :: 0 <= k < |groups| ==>
      groups[k].quantity == QuantityOf(items, groups[k].productId)
      && groups[k].total == AmountOf(items, groups[k].productId)
  }

  /** `groups` is the per-product summary of `items`: one group per
      product sold and nothing else, each holding the units and the money
      of all the lines for its product. */
  predicate ProductGroups(items: seq<SaleItem>, groups: seq<SaleItem>)
  {
    DistinctGroups(groups) && CoversLines(items, groups) && FromLines(items, groups) && Tallied(items, groups)
  }

  lemma MergeKeepsDistinct(groups: seq<SaleItem>, item: SaleItem)
    requires DistinctGroups(groups)
    ensures DistinctGroups(MergeLine(groups, item))
  {
    var r := MergeLine(groups, item);
    if GroupIndex(groups, item.productId) != -1 {
      assert forall k :: 0 <= k < |r| ==> r[k].productId == groups[k].productId;
    }
  }

  lemma MergeCovers(items: seq<SaleItem>, groups: seq<SaleItem>)
    requires |items| > 0
    requires CoversLines(items[..|items| - 1], groups)
    ensures CoversLines(items, MergeLine(groups, items[|items| - 1]))
  {
    var init := items[..|items| - 1];
    var last := items[|items| - 1];
    var i := GroupIndex(groups, last.productId);
    var r := MergeLine(groups, last);
    forall k | 0 <= k < |items| ensures GroupIndex(r, items[k].productId) != -1 {
      if k < |items| - 1 {
        var g := GroupIndex(groups, init[k].productId);
        assert r[g].productId == init[k].productId;
      } else if i == -1 {
        assert r[|groups|] == last;
      } else {
        assert r[i].productId == last.productId;
      }
    }
  }

  lemma MergeFromLines(items: seq<SaleItem>, groups: seq<SaleItem>)
    requires |items| > 0
    requires FromLines(items[..|items| - 1], groups)
    ensures FromLines(items, MergeLine(groups, items[|items| - 1]))
  {
    var last := items[|items| - 1];
    var r := MergeLine(groups, last);
    MentionsSplit(items);
    forall k | 0 <= k < |r| ensures Mentions(items, r[k].productId) {
      if k < |groups| {
        assert r[k].productId == groups[k].productId;
      }
    }
  }

  /** With the product not yet grouped, no earlier line sold it. */
  lemma UngroupedUnsold(items: seq<SaleItem>, groups: seq<SaleItem>, pid: string)
    requires CoversLines(items, groups) && GroupIndex(groups, pid) == -1
    ensures QuantityOf(items, pid) == 0 && AmountOf(items, pid) == 0.0
  {
    assert !Mentions(items, pid) by {
      forall k | 0 <= k < |items| ensures items[k].productId != pid {
        assert GroupIndex(groups, items[k].productId) != -1;
      }
    }
    QuantityAbsent(items, pid);
    AmountAbsent(items, pid);
  }

  lemma MergeTallies(items: seq<SaleItem>, groups: seq<SaleItem>)
    requires |items| > 0
    requires DistinctGroups(groups)
    requires CoversLines(items[..|items| - 1], groups) && Tallied(items[..|items| - 1], groups)
    ensures Tallied(items, MergeLine(groups, items[|items| - 1]))
  {
    var init := items[..|items| - 1];
    var last := items[|items| - 1];
    var i := GroupIndex(groups, last.productId);
    var r := MergeLine(groups, last);
    if i == -1 {
      UngroupedUnsold(init, groups, last.productId);
    }
    forall k | 0 <= k < |r|
      ensures r[k].quantity == QuantityOf(items, r[k].productId)
      ensures r[k].total == AmountOf(items, r[k].productId)
    {
      var pid := r[k].productId;
      assert QuantityOf(items, pid) == QuantityOf(init, pid) + (if last.productId == pid then last.quantity else 0);
      assert AmountOf(items, pid) == AmountOf(init, pid) + (if last.productId == pid then last.total else 0.0);
      if k < |groups| && k != i {
        assert r[k] == groups[k];
      }
    }
  }

  /** The `reduce` that gathers the month's lines by product, groups in
      the order their product was first sold. */
  function GroupByProduct(items: seq<SaleItem>): (r: seq<SaleItem>)
    ensures ProductGroups(items, r)
    decreases |items|
  {
    if |items| == 0 then []
    else
      var g := GroupByProduct(items[..|items| - 1]);
      var last := items[|items| - 1];
      MergeKeepsDistinct(g, last);
      MergeCovers(items, g);
      MergeFromLines(items, g);
      MergeTallies(items, g);
      MergeLine(g, last)
  }

  lemma {:induction false} SumTotalsBump(groups: seq<SaleItem>, i: int, row: SaleItem, delta: real)
    requires 0 <= i < |groups| && row.total == groups[i].total + delta
    ensures SumTotals(groups[i := row]) == SumTotals(groups) + delta
    decreases |groups|
  {
    var n := |groups| - 1;
    if i < n {
      assert groups[i := row][..n] == groups[..n][i := row];
      SumTotalsBump(groups[..n], i, row, delta);
    } else {
      assert groups[i := row][..n] == groups[..n];
    }
  }

  /** Grouping loses no money: the groups' totals add up to the lines'. */
  lemma {:induction false} GroupingKeepsAmount(items: seq<SaleItem>)
    ensures SumTotals(GroupByProduct(items)) == SumTotals(items)
    decreases |items|
  {
    if |items| > 0 {
      var init := items[..|items| - 1];
      var last := items[|items| - 1];
      GroupingKeepsAmount(init);
      GroupByProductSnoc(items);
      MergeKeepsAmount(items, GroupByProduct(init), GroupByProduct(items));
    }
  }

  /** Grouping a list merges its last line into the groups of the rest. */
  lemma GroupByProductSnoc(items: seq<SaleItem>)
    requires |items| > 0
    ensures GroupByProduct(items) == MergeLine(GroupByProduct(items[..|items| - 1]), items[|items| - 1])
  {
  }

  /** Merging the last line into groups that hold the rest's money gives
      groups that hold all of it. */
  lemma MergeKeepsAmount(items: seq<SaleItem>, groups: seq<SaleItem>, merged: seq<SaleItem>)
    requires |items| > 0 && SumTotals(groups) == SumTotals(items[..|items| - 1])
    requires merged == MergeLine(groups, items[|items| - 1])
    ensures SumTotals(merged) == SumTotals(items)
  {
    var item := items[|items| - 1];
    var i := GroupIndex(groups, item.productId);
    if i == -1 {
      assert (groups + [item])[..|groups|] == groups;
    } else {
      SumTotalsBump(groups, i, merged[i], item.total);
    }
  }

  /** The lines of the month's sales, sale after sale (`flatMap`). */
  function LinesOf(sales: seq<Sale>): seq<SaleItem>
  {
    if |sales| == 0 then [] else LinesOf(sales[..|sales| - 1]) + sales[|sales| - 1].items
  }

  // ---------------------------------------------------------------------
  // Best customers

  /** One row of `topCustomers`. */
  datatype CustomerSummary = CustomerSummary(
    customerId: string,
    customerName: string,
    customerCuil: string,
    total: real,
    sales: nat)

  function SummaryIndex(rows: seq<CustomerSummary>, cid: string): (i: int)
    ensures -1 <= i < |rows|
    ensures i == -1 <==> forall j :: 0 <= j < |rows| ==> rows[j].customerId != cid
    ensures 0 <= i ==> rows[i].customerId == cid && forall j :: 0 <= j < i ==> rows[j].customerId != cid
  {
    if |rows| == 0 then -1
    else if rows[0].customerId == cid then 0
    else
      var i := SummaryIndex(rows[1..], cid);
      if i == -1 then -1 else i + 1
  }

  /** Number of sales to customer `cid`. */
  function SalesCount(sales: seq<Sale>, cid: string): nat
  {
    if |sales| == 0 then 0
    else SalesCount(sales[..|sales| - 1], cid) + (if sales[|sales| - 1].customerId == cid then 1 else 0)
  }

  /** Money spent by customer `cid`. */
  function SpentBy(sales: seq<Sale>, cid: string): real
  {
    if |sales| == 0 then 0.0
    else SpentBy(sales[..|sales| - 1], cid) + (if sales[|sales| - 1].customerId == cid then sales[|sales| - 1].total else 0.0)
  }

  function Keys(rows: seq<CustomerSummary>): (r: seq<string>)
    ensures |r| == |rows|
    ensures forall i :: 0 <= i < |rows| ==> r[i] == rows[i].customerId
  {
    seq(|rows|, i requires 0 <= i < |rows| => rows[i].customerId)
  }

  /** The sum of the rows' sale counts. */
  function CountSum(rows: seq<CustomerSummary>): nat
  {
    if |rows| == 0 then 0 else CountSum(rows[..|rows| - 1]) + rows[|rows| - 1].sales
  }

  /** One step of the `reduce`: the sale joins its customer's row (adding
      its total and one to the count), or opens a new row. */
  function MergeSale(rows: seq<CustomerSummary>, s: Sale): seq<CustomerSummary>
  {
    var i := SummaryIndex(rows, s.customerId);
    if i == -1 then rows + [CustomerSummary(s.customerId, s.customerName, s.customerCuil, s.total, 1)]
    else rows[i := rows[i].(total := rows[i].total + s.total, sales := rows[i].sales + 1)]
  }

  /** One merge step opens a row exactly when the customer had none,
      leaves every existing row in its place and every other customer's
      row untouched, and the customer has a row afterwards with one more
      sale and the sale's total on top of what it held. */
  lemma MergeSaleRows(rows: seq<CustomerSummary>, s: Sale)
    ensures var r := MergeSale(rows, s);
            && |r| == (if SummaryIndex(rows, s.customerId) == -1 then |rows| + 1 else |rows|)
            && (forall k :: 0 <= k < |rows| ==> r[k].customerId == rows[k].customerId)
            && (forall k :: 0 <= k < |rows| && rows[k].customerId != s.customerId ==> r[k] == rows[k])
            && SummaryIndex(r, s.customerId) != -1
            && var g := SummaryIndex(rows, s.customerId);
               var j := if g == -1 then |rows| else g;
               r[j].customerId == s.customerId
               && r[j].sales == 1 + (if g == -1 then 0 else rows[g].sales)
               && r[j].total == s.total + (if g == -1 then 0.0 else rows[g].total)
  {
    var r := MergeSale(rows, s);
    var g := SummaryIndex(rows, s.customerId);
    if g == -1 {
      assert r[|rows|].customerId == s.customerId;
    } else {
      assert r[g].customerId == s.customerId;
    }
  }

  /** `rows` is the per-customer summary of `sales`: one row per customer
      who bought and nothing else, each with the customer's number of
      sales and money spent; the counts add up to the number of sales. */
  predicate CustomerRows(sales: seq<Sale>, rows: seq<CustomerSummary>)
  {
    && DistinctRows(rows)
    && RowsCover(sales, rows)
    && Counted(sales, rows)
    && CountSum(rows) == |sales|
  }

  predicate DistinctRows(rows: seq<CustomerSummary>)
  {
    forall i, j :: 0 <= i < j < |rows| ==> rows[i].customerId != rows[j].customerId
  }

  /** Every sale's customer has a row. */
  predicate RowsCover(sales: seq<Sale>, rows: seq<CustomerSummary>)
  {
    forall k :: 0 <= k < |sales| ==> SummaryIndex(rows, sales[k].customerId) != -1
  }

  /** Every row holds at least one sale: the customer's number of sales,
      and the money they spent. */
  predicate Counted(sales: seq<Sale>, rows: seq<CustomerSummary>)
  {
    forall k :: 0 <= k < |rows| ==>
      rows[k].sales >= 1
      && rows[k].sales == SalesCount(sales, rows[k].customerId)
      && rows[k].total == SpentBy(sales, rows[k].customerId)
  }

  lemma {:induction false} CountSumAppend(rows: seq<CustomerSummary>, row: CustomerSummary)
    ensures CountSum(rows + [row]) == CountSum(rows) + row.sales
  {
    assert (rows + [row])[..|rows|] == rows;
  }

  lemma {:induction false} CountSumBump(rows: seq<CustomerSummary>, i: int, row: CustomerSummary)
    requires 0 <= i < |rows| && row.sales == rows[i].sales + 1
    ensures CountSum(rows[i := row]) == CountSum(rows) + 1
    decreases |rows|
  {
    var n := |rows| - 1;
    if i < n {
      assert rows[i := row][..n] == rows[..n][i := row];
      CountSumBump(rows[..n], i, row);
    } else {
      assert rows[i := row][..n] == rows[..n];
    }
  }

  lemma MergeSaleDistinct(rows: seq<CustomerSummary>, s: Sale)
    requires DistinctRows(rows)
    ensures DistinctRows(MergeSale(rows, s))
  {
    var r := MergeSale(rows, s);
    if SummaryIndex(rows, s.customerId) != -1 {
      assert forall k :: 0 <= k < |r| ==> r[k].customerId == rows[k].customerId;
    }
  }

  lemma MergeSaleCovers(sales: seq<Sale>, rows: seq<CustomerSummary>)
    requires |sales| > 0
    requires RowsCover(sales[..|sales| - 1], rows)
    ensures RowsCover(sales, MergeSale(rows, sales[|sales| - 1]))
  {
    var init := sales[..|sales| - 1];
    var s := sales[|sales| - 1];
    var i := SummaryIndex(rows, s.customerId);
    var r := MergeSale(rows, s);
    forall k | 0 <= k < |sales| ensures SummaryIndex(r, sales[k].customerId) != -1 {
      if k < |sales| - 1 {
        var g := SummaryIndex(rows, init[k].customerId);
        assert r[g].customerId == init[k].customerId;
      } else if i == -1 {
        assert r[|rows|].customerId == s.customerId;
      } else {
        assert r[i].customerId == s.customerId;
      }
    }
  }

  lemma MergeSaleCounts(sales: seq<Sale>, rows: seq<CustomerSummary>)
    requires |sales| > 0
    requires DistinctRows(rows) && RowsCover(sales[..|sales| - 1], rows)
    requires Counted(sales[..|sales| - 1], rows)
    ensures Counted(sales, MergeSale(rows, sales[|sales| - 1]))
  {
    var init := sales[..|sales| - 1];
    var s := sales[|sales| - 1];
    var i := SummaryIndex(rows, s.customerId);
    var r := MergeSale(rows, s);
    if i == -1 {
      forall k | 0 <= k < |init| ensures init[k].customerId != s.customerId {
        assert SummaryIndex(rows, init[k].customerId) != -1;
      }
      CountAbsent(init, s.customerId);
    }
    forall k | 0 <= k < |r|
      ensures r[k].sales >= 1
      ensures r[k].sales == SalesCount(sales, r[k].customerId)
      ensures r[k].total == SpentBy(sales, r[k].customerId)
    {
      var cid := r[k].customerId;
      assert SalesCount(sales, cid) == SalesCount(init, cid) + (if s.customerId == cid then 1 else 0);
      assert SpentBy(sales, cid) == SpentBy(init, cid) + (if s.customerId == cid then s.total else 0.0);
      if k < |rows| && k != i {
        assert r[k] == rows[k];
      }
    }
  }

  lemma MergeSaleCountSum(sales: seq<Sale>, rows: seq<CustomerSummary>)
    requires |sales| > 0
    requires CountSum(rows) == |sales| - 1
    ensures CountSum(MergeSale(rows, sales[|sales| - 1])) == |sales|
  {
    var s := sales[|sales| - 1];
    var i := SummaryIndex(rows, s.customerId);
    if i == -1 {
      CountSumAppend(rows, CustomerSummary(s.customerId, s.customerName, s.customerCuil, s.total, 1));
    } else {
      CountSumBump(rows, i, MergeSale(rows, s)[i]);
    }
  }

  lemma {:induction false} CountAbsent(sales: seq<Sale>, cid: string)
    requires forall k :: 0 <= k < |sales| ==> sales[k].customerId != cid
    ensures SalesCount(sales, cid) == 0 && SpentBy(sales, cid) == 0.0
  {
    if |sales| > 0 {
      CountAbsent(sales[..|sales| - 1], cid);
    }
  }

  /** The `reduce` that gathers the month's sales by customer. */
  function GroupByCustomer(sales: seq<Sale>): (r: seq<CustomerSummary>)
    ensures CustomerRows(sales, r)
    decreases |sales|
  {
    if |sales| == 0 then []
    else
      var g := GroupByCustomer(sales[..|sales| - 1]);
      MergeSaleDistinct(g, sales[|sales| - 1]);
      MergeSaleCovers(sales, g);
      MergeSaleCounts(sales, g);
      MergeSaleCountSum(sales, g);
      MergeSale(g, sales[|sales| - 1])
  }

  /** There is exactly one customer row per distinct buyer: the rows are
      as many as `uniqueCustomers`, and before the cut to five their
      counts add up to `totalSales`. */
  lemma CustomerRowsMatchHeadline(sales: seq<Sale>)
    ensures |GroupByCustomer(sales)| == UniqueCustomers(sales)
    ensures CountSum(GroupByCustomer(sales)) == |sales|
  {
    RowsAsManyAsBuyers(sales, GroupByCustomer(sales));
  }

  lemma RowsAsManyAsBuyers(sales: seq<Sale>, rows: seq<CustomerSummary>)
    requires DistinctRows(rows) && RowsCover(sales, rows) && Counted(sales, rows)
    ensures |rows| == |Lists.Distinct(CustomerIds(sales))|
  {
    RowKeysAreBuyers(sales, rows);
    BuyersHaveRows(sales, rows);
    Lists.DistinctLength(CustomerIds(sales), Keys(rows));
  }

  /** Every row is for a customer who bought. */
  lemma RowKeysAreBuyers(sales: seq<Sale>, rows: seq<CustomerSummary>)
    requires Counted(sales, rows)
    ensures forall i :: 0 <= i < |rows| ==> Keys(rows)[i] in CustomerIds(sales)
  {
    forall i | 0 <= i < |rows| ensures Keys(rows)[i] in CustomerIds(sales) {
      var cid := rows[i].customerId;
      if forall k :: 0 <= k < |sales| ==> sales[k].customerId != cid {
        CountAbsent(sales, cid);
        assert false;
      }
      var k :| 0 <= k < |sales| && sales[k].customerId == cid;
      assert CustomerIds(sales)[k] == cid;
    }
  }

  /** Every buyer has a row, and the rows' keys are all different. */
  lemma BuyersHaveRows(sales: seq<Sale>, rows: seq<CustomerSummary>)
    requires RowsCover(sales, rows) && DistinctRows(rows)
    ensures forall k :: 0 <= k < |sales| ==> CustomerIds(sales)[k] in Keys(rows)
    ensures Lists.NoDuplicates(Keys(rows))
  {
    forall k | 0 <= k < |sales| ensures CustomerIds(sales)[k] in Keys(rows) {
      var i := SummaryIndex(rows, sales[k].customerId);
      assert Keys(rows)[i] == sales[k].customerId;
    }
  }

  // ---------------------------------------------------------------------
  // Ordering and the cut to five

  /** `arr.sort((a, b) => key(b) - key(a))`, which JavaScript performs as
      a stable sort: biggest key first, ties kept in list order.  Written
      as an insertion sort that puts each element before the first one
      whose key is not bigger. */
  function InsertByKey<T>(x: T, ys: seq<T>, key: T -> real): (r: seq<T>)
    ensures multiset(r) == multiset(ys) + multiset{x}
    ensures |r| == |ys| + 1
    decreases |ys|
  {
    if |ys| == 0 || key(ys[0]) <= key(x) then [x] + ys
    else
      assert ys == [ys[0]] + ys[1..];
      [ys[0]] + InsertByKey(x, ys[1..], key)
  }

  function SortByKey<T>(xs: seq<T>, key: T -> real): (r: seq<T>)
    ensures multiset(r) == multiset(xs)
    ensures |r| == |xs|
    decreases |xs|
  {
    if |xs| == 0 then []
    else
      assert xs == [xs[0]] + xs[1..];
      InsertByKey(xs[0], SortByKey(xs[1..], key), key)
  }

  predicate DescendingBy<T>(xs: seq<T>, key: T -> real)
  {
    forall i, j :: 0 <= i < j < |xs| ==> key(xs[i]) >= key(xs[j])
  }

  lemma {:induction false} InsertKeepsOrder<T>(x: T, ys: seq<T>, key: T -> real)
    requires DescendingBy(ys, key)
    ensures DescendingBy(InsertByKey(x, ys, key), key)
    decreases |ys|
  {
    if |ys| > 0 && key(ys[0]) > key(x) {
      var rest := InsertByKey(x, ys[1..], key);
      InsertKeepsOrder(x, ys[1..], key);
      var r := [ys[0]] + rest;
      forall j | 0 < j < |r| ensures key(r[0]) >= key(r[j]) {
        assert r[j] in multiset(rest);
        if r[j] != x {
          assert r[j] in multiset(ys[1..]);
          var m :| 0 <= m < |ys[1..]| && ys[1..][m] == r[j];
          assert ys[m + 1] == r[j];
        }
      }
    }
  }

  /** The sort orders by key, biggest first. */
  lemma {:induction false} SortOrders<T>(xs: seq<T>, key: T -> real)
    ensures DescendingBy(SortByKey(xs, key), key)
    decreases |xs|
  {
    if |xs| > 0 {
      SortOrders(xs[1..], key);
      InsertKeepsOrder(xs[0], SortByKey(xs[1..], key), key);
    }
  }

  /** The test "has key `v`". */
  function KeyIs<T>(key: T -> real, v: real): T -> bool
  {
    e => key(e) == v
  }

  lemma {:induction false} InsertStable<T>(x: T, ys: seq<T>, key: T -> real, v: real)
    ensures Lists.Filter(InsertByKey(x, ys, key), KeyIs(key, v)) == Lists.Filter([x] + ys, KeyIs(key, v))
    decreases |ys|
  {
    if |ys| > 0 && key(ys[0]) > key(x) {
      var a, rest := ys[0], ys[1..];
      assert ys == [a] + rest;
      InsertStable(x, rest, key, v);
      SwapPastFailing(x, a, rest, InsertByKey(x, rest, key), KeyIs(key, v));
    }
  }

  /** Moving an element past one that cannot pass together with it does
      not change what a filter keeps. */
  lemma SwapPastFailing<T>(x: T, a: T, rest: seq<T>, ins: seq<T>, keep: T -> bool)
    requires !(keep(a) && keep(x))
    requires Lists.Filter(ins, keep) == Lists.Filter([x] + rest, keep)
    ensures Lists.Filter([a] + ins, keep) == Lists.Filter([x] + ([a] + rest), keep)
  {
    Lists.FilterCons(a, ins, keep);
    Lists.FilterCons(x, rest, keep);
    Lists.FilterCons(x, [a] + rest, keep);
    Lists.FilterCons(a, rest, keep);
  }

  /** The sort is stable: among elements with the same key the list
      order is kept. */
  lemma {:induction false} SortStable<T>(xs: seq<T>, key: T -> real, v: real)
    ensures Lists.Filter(SortByKey(xs, key), KeyIs(key, v)) == Lists.Filter(xs, KeyIs(key, v))
    decreases |xs|
  {
    if |xs| > 0 {
      SortStable(xs[1..], key, v);
      InsertStable(xs[0], SortByKey(xs[1..], key), key, v);
      assert ([xs[0]] + SortByKey(xs[1..], key))[1..] == SortByKey(xs[1..], key);
    }
  }

  const TopCount := 5

  /** `.slice(0, 5)`. */
  function Top<T>(xs: seq<T>): (r: seq<T>)
    ensures |r| == if |xs| < TopCount then |xs| else TopCount
    ensures r == xs[..|r|]
  {
    if |xs| <= TopCount then xs else xs[..TopCount]
  }

  /** Sort by key, biggest first, and keep the first five: what is kept is
      in order, comes from the list, and nothing left out beats anything
      kept. */
  function TopBy<T>(xs: seq<T>, key: T -> real): (r: seq<T>)
    ensures |r| == if |xs| < TopCount then |xs| else TopCount
    ensures DescendingBy(r, key)
    ensures multiset(r) <= multiset(xs)
    ensures forall i, x :: 0 <= i < |r| && x in multiset(xs) - multiset(r) ==> key(x) <= key(r[i])
  {
    var sorted := SortByKey(xs, key);
    SortOrders(xs, key);
    PrefixBeatsRest(sorted, |Top(sorted)|, key);
    Top(sorted)
  }

  /** In a list sorted biggest first, a prefix is sorted, and no element
      after it beats an element in it. */
  lemma PrefixBeatsRest<T>(sorted: seq<T>, n: nat, key: T -> real)
    requires n <= |sorted| && DescendingBy(sorted, key)
    ensures DescendingBy(sorted[..n], key)
    ensures multiset(sorted[..n]) <= multiset(sorted)
    ensures forall i, x :: 0 <= i < n && x in multiset(sorted) - multiset(sorted[..n]) ==> key(x) <= key(sorted[..n][i])
  {
    var r := sorted[..n];
    var rest := sorted[n..];
    assert sorted == r + rest;
    assert multiset(sorted) - multiset(r) == multiset(rest);
    forall i, x | 0 <= i < n && x in multiset(rest) ensures key(x) <= key(r[i]) {
      var m :| 0 <= m < |rest| && rest[m] == x;
      assert sorted[n + m] == x && sorted[i] == r[i];
    }
  }

  function ProductQuantity(g: SaleItem): real
  {
    g.quantity as real
  }

  function CustomerTotal(c: CustomerSummary): real
  {
    c.total
  }

  /** What the cut to five keeps comes from the list. */
  lemma TopByKeeps<T>(xs: seq<T>, key: T -> real)
    ensures forall i :: 0 <= i < |TopBy(xs, key)| ==> TopBy(xs, key)[i] in xs
  {
    var r := TopBy(xs, key);
    forall i | 0 <= i < |r| ensures r[i] in xs {
      assert r[i] in multiset(xs);
    }
  }

  /** An element the cut leaves out is no bigger than any element kept. */
  lemma TopByLeavesOut<T>(xs: seq<T>, key: T -> real, x: T)
    requires x in xs && x !in TopBy(xs, key)
    ensures forall i :: 0 <= i < |TopBy(xs, key)| ==> key(x) <= key(TopBy(xs, key)[i])
  {
    assert x in multiset(xs) - multiset(TopBy(xs, key));
  }

  /** When fewer than five are kept, everything is kept. */
  lemma TopByKeepsAll<T>(xs: seq<T>, key: T -> real)
    requires |TopBy(xs, key)| < TopCount
    ensures forall j :: 0 <= j < |xs| ==> xs[j] in TopBy(xs, key)
  {
    var r := TopBy(xs, key);
    SubMultisetSameSize(multiset(r), multiset(xs));
    forall j | 0 <= j < |xs| ensures xs[j] in r {
      assert xs[j] in multiset(r);
    }
  }
  /** Something the cut leaves out means five were kept, each with at
      least its key. */
  lemma TopByLeftOutIsBeaten<T>(xs: seq<T>, key: T -> real, x: T)
    requires x in xs && x !in TopBy(xs, key)
    ensures |TopBy(xs, key)| == TopCount
    ensures forall i :: 0 <= i < |TopBy(xs, key)| ==> key(x) <= key(TopBy(xs, key)[i])
  {
    if |TopBy(xs, key)| < TopCount {
      TopByKeepsAll(xs, key);
      assert false;
    }
    TopByLeavesOut(xs, key, x);
  }


  /** A part of a multiset as large as the whole is the whole. */
  lemma SubMultisetSameSize<T>(a: multiset<T>, b: multiset<T>)
    requires a <= b && |a| == |b|
    ensures a == b
  {
    var d := b - a;
    assert b == a + d;
    assert |d| == 0;
  }

  /** An element that occurs at one place only occurs once. */
  lemma UniqueCount<T>(xs: seq<T>, a: nat)
    requires a < |xs|
    requires forall j :: 0 <= j < |xs| && j != a ==> xs[j] != xs[a]
    ensures multiset(xs)[xs[a]] == 1
  {
    var x := xs[a];
    assert xs == xs[..a] + [x] + xs[a + 1..];
    assert x !in xs[..a];
    assert x !in xs[a + 1..];
  }

  /** An element that occurs at two places occurs at least twice. */
  lemma TwoCopies<T>(r: seq<T>, i: nat, j: nat)
    requires i < j < |r| && r[i] == r[j]
    ensures multiset(r)[r[i]] >= 2
  {
    assert r == r[..i] + [r[i]] + r[i + 1..];
    assert r[j] in r[i + 1..];
  }

  /** The cut keeps elements whose ids are all different when the list's
      ids are. */
  lemma TopByKeepsDistinct<T>(xs: seq<T>, key: T -> real, id: T -> string)
    requires forall i, j :: 0 <= i < j < |xs| ==> id(xs[i]) != id(xs[j])
    ensures forall i, j :: 0 <= i < j < |TopBy(xs, key)| ==> id(TopBy(xs, key)[i]) != id(TopBy(xs, key)[j])
  {
    var r := TopBy(xs, key);
    forall i, j | 0 <= i < j < |r| ensures id(r[i]) != id(r[j]) {
      assert r[i] in multiset(xs) && r[j] in multiset(xs);
      var a :| 0 <= a < |xs| && xs[a] == r[i];
      var b :| 0 <= b < |xs| && xs[b] == r[j];
      if id(r[i]) == id(r[j]) {
        assert a == b;
        UniqueCount(xs, a);
        TwoCopies(r, i, j);
        assert false;
      }
    }
  }

  /** `topProducts`: the month's product groups with the most units sold,
      at most five, biggest first, one per product. */
  function TopProducts(monthly: seq<Sale>): (r: seq<SaleItem>)
    ensures |r| <= TopCount
    ensures DescendingBy(r, ProductQuantity)
    ensures DistinctGroups(r)
  {
    var groups := GroupByProduct(LinesOf(monthly));
    TopByKeepsDistinct(groups, ProductQuantity, (g: SaleItem) => g.productId);
    TopBy(groups, ProductQuantity)
  }

  /** Each listed product comes with all the units and money the month's
      lines took for it. */
  lemma TopProductsTallied(monthly: seq<Sale>)
    ensures var lines := LinesOf(monthly);
            var r := TopProducts(monthly);
            forall i :: 0 <= i < |r| ==>
              && Mentions(lines, r[i].productId)
              && r[i].quantity == QuantityOf(lines, r[i].productId)
              && r[i].total == AmountOf(lines, r[i].productId)
  {
    var lines := LinesOf(monthly);
    var groups := GroupByProduct(lines);
    var r := TopProducts(monthly);
    TopByKeeps(groups, ProductQuantity);
    forall i | 0 <= i < |r|
      ensures && Mentions(lines, r[i].productId)
              && r[i].quantity == QuantityOf(lines, r[i].productId)
              && r[i].total == AmountOf(lines, r[i].productId)
    {
      var a :| 0 <= a < |groups| && groups[a] == r[i];
    }
  }

  /** A product sold in the month but not listed sold no more units than
      any listed product; with fewer than five listed, every product
      sold is listed. */
  lemma TopProductsLeaveOut(monthly: seq<Sale>, pid: string)
    requires Mentions(LinesOf(monthly), pid)
    ensures var r := TopProducts(monthly);
            GroupIndex(r, pid) == -1 ==>
              |r| == TopCount && forall i :: 0 <= i < |r| ==> QuantityOf(LinesOf(monthly), pid) <= r[i].quantity
  {
    var groups := GroupByProduct(LinesOf(monthly));
    var g := MentionedHasGroup(LinesOf(monthly), pid);
    GroupLeftOut(groups, g);
    assert TopProducts(monthly) == TopBy(groups, ProductQuantity);
  }

  /** A group the cut leaves out is beaten by all five kept. */
  lemma GroupLeftOut(groups: seq<SaleItem>, g: SaleItem)
    requires g in groups
    ensures var r := TopBy(groups, ProductQuantity);
            GroupIndex(r, g.productId) == -1 ==>
              |r| == TopCount && forall i :: 0 <= i < |r| ==> g.quantity <= r[i].quantity
  {
    var r := TopBy(groups, ProductQuantity);
    if GroupIndex(r, g.productId) == -1 {
      assert g !in r;
      TopByLeftOutIsBeaten(groups, ProductQuantity, g);
      forall i | 0 <= i < |r| ensures g.quantity <= r[i].quantity {
        assert ProductQuantity(g) <= ProductQuantity(r[i]);
      }
    }
  }

  /** A product among the lines has its group, holding all its units. */
  lemma MentionedHasGroup(lines: seq<SaleItem>, pid: string) returns (g: SaleItem)
    requires Mentions(lines, pid)
    ensures g in GroupByProduct(lines) && g.productId == pid && g.quantity == QuantityOf(lines, pid)
  {
    var groups := GroupByProduct(lines);
    var k :| 0 <= k < |lines| && lines[k].productId == pid;
    assert GroupIndex(groups, lines[k].productId) != -1;
    g := groups[GroupIndex(groups, pid)];
  }

  /** `topCustomers`: the month's customer rows with the most money
      spent, at most five, biggest first, one per customer. */
  function TopCustomers(monthly: seq<Sale>): (r: seq<CustomerSummary>)
    ensures |r| <= TopCount
    ensures DescendingBy(r, CustomerTotal)
    ensures DistinctRows(r)
  {
    var rows := GroupByCustomer(monthly);
    TopByKeepsDistinct(rows, CustomerTotal, (c: CustomerSummary) => c.customerId);
    TopBy(rows, CustomerTotal)
  }

  /** Each listed customer comes with their number of sales in the month
      (at least one) and the money they spent. */
  lemma TopCustomersCounted(monthly: seq<Sale>)
    ensures Counted(monthly, TopCustomers(monthly))
  {
    var rows := GroupByCustomer(monthly);
    var r := TopCustomers(monthly);
    TopByKeeps(rows, CustomerTotal);
    forall i | 0 <= i < |r|
      ensures && r[i].sales >= 1
              && r[i].sales == SalesCount(monthly, r[i].customerId)
              && r[i].total == SpentBy(monthly, r[i].customerId)
    {
      var a :| 0 <= a < |rows| && rows[a] == r[i];
    }
  }

  /** A customer who bought in the month but is not listed spent no more
      than any listed customer; with fewer than five listed, every buyer
      is listed. */
  lemma TopCustomersLeaveOut(monthly: seq<Sale>, k: nat)
    requires k < |monthly|
    ensures var r := TopCustomers(monthly);
            var cid := monthly[k].customerId;
            SummaryIndex(r, cid) == -1 ==>
              |r| == TopCount && forall i :: 0 <= i < |r| ==> SpentBy(monthly, cid) <= r[i].total
  {
    var rows := GroupByCustomer(monthly);
    var r := TopCustomers(monthly);
    var cid := monthly[k].customerId;
    var c := rows[SummaryIndex(rows, cid)];
    assert SummaryIndex(rows, cid) != -1;
    if SummaryIndex(r, cid) == -1 {
      assert c !in r;
      TopByLeftOutIsBeaten(rows, CustomerTotal, c);
    }
  }

  // ---------------------------------------------------------------------
  // The whole report

  datatype Report = Report(
    sales: seq<Sale>,
    totalAmount: real,
    totalSales: nat,
    uniqueCustomers: nat,
    topProducts: seq<SaleItem>,
    topCustomers: seq<CustomerSummary>,
    lowStock: seq<Product>)

  /** Everything the screen shows for the selected month. */
  function MonthlyReport(sales: seq<Sale>, products: seq<Product>, month: string): (r: Report)
    ensures r.sales == MonthlySales(sales, month) && r.totalSales == |r.sales|
    ensures r.totalAmount == TotalAmount(r.sales)
    ensures r.uniqueCustomers <= r.totalSales
    ensures |r.topProducts| <= TopCount && |r.topCustomers| <= TopCount
    ensures r.uniqueCustomers == UniqueCustomers(r.sales)
    ensures r.topProducts == TopProducts(r.sales) && r.topCustomers == TopCustomers(r.sales)
    ensures forall j :: 0 <= j < |r.lowStock| ==> r.lowStock[j] in products && Catalog.IsLow(r.lowStock[j])
    ensures forall j :: 0 <= j < |products| && Catalog.IsLow(products[j]) ==> products[j] in r.lowStock
  {
    var monthly := MonthlySales(sales, month);
    Report(monthly, TotalAmount(monthly), |monthly|, UniqueCustomers(monthly),
           TopProducts(monthly), TopCustomers(monthly), Catalog.LowStockProducts(products))
  }

  /** The report's figures mean what the screen labels them: each listed
      product carries all of its units and money for the month, each
      listed customer their number of sales and money spent, and the
      buyer count is the number of per-customer rows. */
  lemma MonthlyReportFigures(sales: seq<Sale>, products: seq<Product>, month: string)
    ensures var r := MonthlyReport(sales, products, month);
            var lines := LinesOf(r.sales);
            && (forall i :: 0 <= i < |r.topProducts| ==>
                  && r.topProducts[i].quantity == QuantityOf(lines, r.topProducts[i].productId)
                  && r.topProducts[i].total == AmountOf(lines, r.topProducts[i].productId))
            && Counted(r.sales, r.topCustomers)
            && r.uniqueCustomers == |GroupByCustomer(r.sales)|
  {
    var r := MonthlyReport(sales, products, month);
    TopProductsTallied(r.sales);
    TopCustomersCounted(r.sales);
    CustomerRowsMatchHeadline(r.sales);
  }
}
