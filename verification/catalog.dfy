/** The read-only views of the catalog the screens show: the searches of
    the product, stock and customer screens, the stock-status badges, and
    the category and stock-filter chips of the product filter panel. */
module Catalog {
  import opened Domain
  import opened Text
  import Lists

  // ---------------------------------------------------------------------
  // Searches

  /** The product and stock screens' test: name or category contains the
      query, ignoring case. */
  predicate ProductMatches(p: Product, query: string)
  {
    IncludesIgnoringCase(p.name, query) || IncludesIgnoringCase(p.category, query)
  }

  /** `filteredProducts` of the product and stock screens. */
  function SearchProducts(products: seq<Product>, query: string): (r: seq<Product>)
    ensures |r| <= |products|
    ensures forall j :: 0 <= j < |r| ==> r[j] in products && ProductMatches(r[j], query)
    ensures forall j :: 0 <= j < |products| && ProductMatches(products[j], query) ==> products[j] in r
  {
    Lists.Filter(products, p => ProductMatches(p, query))
  }

  /** An empty query hides nothing. */
  lemma EmptyProductSearch(products: seq<Product>)
    ensures SearchProducts(products, "") == products
  {
    forall j | 0 <= j < |products| ensures ProductMatches(products[j], "") {
      EmptyIncluded(Lower(products[j].name));
    }
    Lists.FilterKeepsAll(products, p => ProductMatches(p, ""));
  }

  /** Searching the concatenation of two lists searches each, in order. */
  lemma ProductSearchConcat(xs: seq<Product>, ys: seq<Product>, query: string)
    ensures SearchProducts(xs + ys, query) == SearchProducts(xs, query) + SearchProducts(ys, query)
  {
    Lists.FilterConcat(xs, ys, p => ProductMatches(p, query));
  }

  /** `filteredCustomers`: the name contains the query ignoring case, or
      the CUIL contains it exactly as typed. */
  predicate CustomerMatches(c: Customer, query: string)
  {
    IncludesIgnoringCase(c.name, query) || Includes(c.cuil, query)
  }

  function SearchCustomers(customers: seq<Customer>, query: string): (r: seq<Customer>)
    ensures |r| <= |customers|
    ensures forall j :: 0 <= j < |r| ==> r[j] in customers && CustomerMatches(r[j], query)
    ensures forall j :: 0 <= j < |customers| && CustomerMatches(customers[j], query) ==> customers[j] in r
  {
    Lists.Filter(customers, c => CustomerMatches(c, query))
  }

  lemma EmptyCustomerSearch(customers: seq<Customer>)
    ensures SearchCustomers(customers, "") == customers
  {
    forall j | 0 <= j < |customers| ensures CustomerMatches(customers[j], "") {
      EmptyIncluded(customers[j].cuil);
    }
    Lists.FilterKeepsAll(customers, c => CustomerMatches(c, ""));
  }

  // ---------------------------------------------------------------------
  // Stock status

  datatype Status = OutOfStock | Low | Normal

  /** The stock screen's badge: out when nothing is left, low up to the
      minimum, normal above it. */
  function StockStatus(p: Product): (s: Status)
    ensures s == OutOfStock <==> p.stock == 0
    ensures s == Low <==> p.stock != 0 && p.stock <= p.minStock
    ensures s == Normal <==> p.stock != 0 && p.stock > p.minStock
  {
    if p.stock == 0 then OutOfStock
    else if p.stock <= p.minStock then Low
    else Normal
  }

  /** The product screen's two-state badge and the reports' low-stock test. */
  predicate IsLow(p: Product)
  {
    p.stock <= p.minStock
  }

  /** For a product whose minimum is not negative (every product the form
      accepts), the stock screen warns exactly when the product screen does. */
  lemma StatusAgreesWithLowBadge(p: Product)
    requires p.minStock >= 0
    ensures StockStatus(p) != Normal <==> IsLow(p)
  {
  }

  // ---------------------------------------------------------------------
  // The product filter panel

  const AllCategories := "Todas"

  function CategoriesOf(products: seq<Product>): (r: seq<string>)
    ensures |r| == |products|
    ensures forall i :: 0 <= i < |products| ==> r[i] == products[i].category
  {
    seq(|products|, i requires 0 <= i < |products| => products[i].category)
  }

  /** `categories`: "Todas", then each category once, in the order the
      products first mention it. */
  function Categories(products: seq<Product>): (r: seq<string>)
    ensures |r| >= 1 && r[0] == AllCategories
    ensures Lists.NoDuplicates(r[1..])
    ensures forall i :: 0 <= i < |products| ==> products[i].category in r[1..]
    ensures forall i :: 1 <= i < |r| ==> r[i] in CategoriesOf(products)
    ensures Lists.DistinctOf(CategoriesOf(products), r[1..])
  {
    var d := Lists.Distinct(CategoriesOf(products));
    assert ([AllCategories] + d)[1..] == d;
    [AllCategories] + d
  }

  /** "Todas" is listed once unless some product is filed under a
      category of that very name. */
  lemma CategoriesListedOnce(products: seq<Product>)
    requires forall i :: 0 <= i < |products| ==> products[i].category != AllCategories
    ensures Lists.NoDuplicates(Categories(products))
  {
    var r := Categories(products);
    var names := CategoriesOf(products);
    forall k | 0 <= k < |names| ensures names[k] != AllCategories {
      assert names[k] == products[k].category;
    }
    NoDuplicatesCons(AllCategories, r[1..], names);
    assert [AllCategories] + r[1..] == r;
  }

  /** A value from outside `names` put in front of distinct values drawn
      from `names` repeats nothing. */
  lemma NoDuplicatesCons(x: string, d: seq<string>, names: seq<string>)
    requires Lists.NoDuplicates(d)
    requires forall i :: 0 <= i < |d| ==> d[i] in names
    requires forall k :: 0 <= k < |names| ==> names[k] != x
    ensures Lists.NoDuplicates([x] + d)
  {
    var r := [x] + d;
    forall i, j | 0 <= i < j < |r| ensures r[i] != r[j] {
      assert r[j] == d[j - 1];
      if i > 0 {
        assert r[i] == d[i - 1];
      }
    }
  }

  /** `lowStockProducts` (also the reports' list). */
  function LowStockProducts(products: seq<Product>): (r: seq<Product>)
    ensures forall j :: 0 <= j < |r| ==> r[j] in products && IsLow(r[j])
    ensures forall j :: 0 <= j < |products| && IsLow(products[j]) ==> products[j] in r
  {
    Lists.Filter(products, IsLow)
  }

  predicate IsOut(p: Product)
  {
    p.stock == 0
  }

  /** `outOfStockProducts`. */
  function OutOfStockProducts(products: seq<Product>): (r: seq<Product>)
    ensures forall j :: 0 <= j < |r| ==> r[j] in products && r[j].stock == 0
    ensures forall j :: 0 <= j < |products| && products[j].stock == 0 ==> products[j] in r
  {
    Lists.Filter(products, IsOut)
  }

  datatype FilterCounts = FilterCounts(all: nat, low: nat, out: nat)

  /** `stockFilters`: the chip counts for all, low and out of stock.  Out
      of stock is a special case of low stock as long as minimums are not
      negative, so the chips are ordered. */
  function StockFilterCounts(products: seq<Product>): (r: FilterCounts)
    ensures r.all == |products|
    ensures r.low == |LowStockProducts(products)| && r.out == |OutOfStockProducts(products)|
    ensures r.low <= r.all && r.out <= r.all
    ensures (forall j :: 0 <= j < |products| ==> products[j].minStock >= 0) ==> r.out <= r.low
  {
    var low := LowStockProducts(products);
    var out := OutOfStockProducts(products);
    assert (forall j :: 0 <= j < |products| ==> products[j].minStock >= 0) ==> |out| <= |low| by {
      if forall j :: 0 <= j < |products| ==> products[j].minStock >= 0 {
        Lists.FilterMonotone(products, IsOut, IsLow);
      }
    }
    FilterCounts(|products|, |low|, |out|)
  }
}
