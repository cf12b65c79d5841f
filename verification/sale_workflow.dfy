/** Saving a sale from either sale screen: validation against the freshly
    stored stock, then the sale itself (which lowers the stored stock),
    then one outgoing stock movement per cart line. */
module SaleWorkflow {
  import opened Domain
  import opened Store
  import Text
  import Pricing
  import SalesSlice
  import StockMovementsSlice
  import Reports
  import Lists

  /** The clock reading taken when the save starts: calendar year, month
      (1-12) and the ISO timestamp used as the sale and movement date. */
  datatype Clock = Clock(year: nat, month: int, iso: string)

  const SaleReason := "Venta"

  datatype SaveError =
    | MissingCustomerOrItems
    | StaleStock(productName: string, available: int)

  datatype Outcome =
    | Saved(sale: Sale, movements: seq<StockMovement>)
    | Rejected(error: SaveError)

  /** The line can still be served from the stored stock. */
  predicate InStock(db: Db, l: SaleItem)
  {
    l.productId in db.products && db.products[l.productId].stock >= l.quantity
  }

  /** Position of the first line the stored stock cannot serve, or -1. */
  function FirstShortLine(db: Db, items: seq<SaleItem>): (i: int)
    ensures -1 <= i < |items|
    ensures i == -1 <==> forall k :: 0 <= k < |items| ==> InStock(db, items[k])
    ensures 0 <= i ==> !InStock(db, items[i]) && forall k :: 0 <= k < i ==> InStock(db, items[k])
  {
    if |items| == 0 then -1
    else if !InStock(db, items[0]) then 0
    else
      var i := FirstShortLine(db, items[1..]);
      if i == -1 then -1 else i + 1
  }

  /** The stock the error message reports: the stored stock, or 0 for a
      product that no longer exists. */
  function Available(db: Db, pid: string): int
  {
    match GetProductById(db, pid)
    case Some(p) => p.stock
    case None => 0
  }

  /** The pre-save checks, in order: a customer and at least one line,
      then every line against the stored stock (first failure reported). */
  function Validate(db: Db, customer: Option<Customer>, items: seq<SaleItem>): (r: Option<SaveError>)
    ensures r.None? <==>
              customer.Some? && |items| > 0 && forall k :: 0 <= k < |items| ==> InStock(db, items[k])
    ensures r == Some(MissingCustomerOrItems) <==> customer.None? || |items| == 0
    ensures r.Some? && r.value.StaleStock? ==>
              var i := FirstShortLine(db, items);
              r.value.productName == items[i].productName && r.value.available == Available(db, items[i].productId)
              && (items[i].productId in db.products ==> r.value.available < items[i].quantity)
  {
    if customer.None? || |items| == 0 then Some(MissingCustomerOrItems)
    else
      var i := FirstShortLine(db, items);
      if i == -1 then None
      else Some(StaleStock(items[i].productName, Available(db, items[i].productId)))
  }

  /** The outgoing movement the save records for one line. */
  function SaleMovement(l: SaleItem, iso: string): MovementDraft
  {
    MovementDraft(l.productId, l.productName, Out, l.quantity, SaleReason, iso)
  }

  /** Records one movement per line, in line order, with the given ids. */
  function RecordMovements(db: Db, items: seq<SaleItem>, ids: seq<string>, iso: string)
    : (r: (Db, seq<StockMovement>))
    requires |ids| == |items|
    ensures |r.1| == |items|
    ensures r.0.movements == db.movements + r.1
    ensures r.0.products == db.products && r.0.sales == db.sales
    ensures forall k :: 0 <= k < |items| ==>
              StockMovementsSlice.DraftOf(r.1[k]) == SaleMovement(items[k], iso)
              && r.1[k].id == ids[k] && r.1[k].createdAt == iso
    decreases |items|
  {
    if |items| == 0 then (db, [])
    else
      var (db1, m) := StockMovementsSlice.PersistMovement(db, SaleMovement(items[0], iso), ids[0], iso);
      var (db2, ms) := RecordMovements(db1, items[1..], ids[1..], iso);
      (db2, [m] + ms)
  }

  /** The sale record built from the customer, the cart and the clock. */
  function SaleDraftFor(c: Customer, items: seq<SaleItem>, total: real, clock: Clock): SaleDraft
    requires 1 <= clock.month <= 12
  {
    SaleDraft(c.id, c.name, c.cuil, items, total, clock.iso, Text.MonthKey(clock.year, clock.month), clock.year)
  }

  /** `handleSaveSale` with the sale total already worked out: validation,
      then the sale, then the movements.  A rejected save leaves the
      database exactly as it was. */
  function SaveSale(db: Db, customer: Option<Customer>, items: seq<SaleItem>, total: real, clock: Clock,
                    saleId: string, movementIds: seq<string>): (r: (Db, Outcome))
    requires 1 <= clock.month <= 12
    requires |movementIds| == |items|
    ensures r.1.Rejected? <==> Validate(db, customer, items).Some?
    ensures r.1.Rejected? ==> r.0 == db && r.1.error == Validate(db, customer, items).value
    ensures r.1.Saved? ==>
              && SalesSlice.DraftOf(r.1.sale) == SaleDraftFor(customer.value, items, total, clock)
              && r.1.sale.id == saleId
              && r.0.sales == db.sales + [r.1.sale]
              && r.0.movements == db.movements + r.1.movements
              && r.0.products.Keys == db.products.Keys
  {
    match Validate(db, customer, items)
    case Some(e) => (db, Rejected(e))
    case None =>
      var (db1, sale) := SalesSlice.PersistSale(db, SaleDraftFor(customer.value, items, total, clock), saleId, clock.iso);
      var (db2, movements) := RecordMovements(db1, items, movementIds, clock.iso);
      (db2, Saved(sale, movements))
  }

  /** Every saved sale is recorded with exactly one outgoing "Venta"
      movement per line, carrying the line's product and quantity. */
  lemma SaveRecordsOneMovementPerLine(db: Db, customer: Option<Customer>, items: seq<SaleItem>, total: real,
                                      clock: Clock, saleId: string, movementIds: seq<string>)
    requires 1 <= clock.month <= 12 && |movementIds| == |items|
    ensures var r := SaveSale(db, customer, items, total, clock, saleId, movementIds);
            r.1.Saved? ==>
              && |r.1.movements| == |items|
              && forall k :: 0 <= k < |items| ==>
                   && r.1.movements[k].productId == items[k].productId
                   && r.1.movements[k].quantity == items[k].quantity
                   && r.1.movements[k].kind == Out
                   && r.1.movements[k].reason == SaleReason
                   && r.1.movements[k].id == movementIds[k]
  {
  }

  /** The stored month of a saved sale is the zero-padded "YYYY-MM" of the
      clock, from which the clock's year and month read back. */
  lemma SaveStampsMonth(db: Db, customer: Option<Customer>, items: seq<SaleItem>, total: real,
                        clock: Clock, saleId: string, movementIds: seq<string>)
    requires 1 <= clock.month <= 12 && |movementIds| == |items|
    ensures var r := SaveSale(db, customer, items, total, clock, saleId, movementIds);
            r.1.Saved? ==>
              && r.1.sale.month == Text.MonthKey(clock.year, clock.month)
              && Text.ParseMonthKey(r.1.sale.month) == (clock.year, clock.month)
              && r.1.sale.year == clock.year && r.1.sale.date == clock.iso
  {
    Text.MonthKeyRoundTrip(clock.year, clock.month);
  }

  /** A cart with one line per product, positive quantities and stock for
      each line leaves every sold product with exactly its stock minus
      the quantity sold (no clamping happens), and every other product
      untouched. */
  lemma SaveDecrementsExactly(db: Db, customer: Option<Customer>, items: seq<SaleItem>, total: real,
                              clock: Clock, saleId: string, movementIds: seq<string>)
    requires 1 <= clock.month <= 12 && |movementIds| == |items|
    requires forall i, j :: 0 <= i < j < |items| ==> items[i].productId != items[j].productId
    requires forall k :: 0 <= k < |items| ==> items[k].quantity >= 0
    ensures var r := SaveSale(db, customer, items, total, clock, saleId, movementIds);
            r.1.Saved? ==>
              && (forall k :: 0 <= k < |items| ==>
                    r.0.products[items[k].productId].stock
                    == db.products[items[k].productId].stock - items[k].quantity)
              && (forall pid :: pid in db.products && !Mentions(items, pid) ==>
                    r.0.products[pid] == db.products[pid])
  {
    var r := SaveSale(db, customer, items, total, clock, saleId, movementIds);
    if r.1.Saved? {
      forall k | 0 <= k < |items|
        ensures r.0.products[items[k].productId].stock
                == db.products[items[k].productId].stock - items[k].quantity
      {
        assert InStock(db, items[k]);
        assert Mentions(items, items[k].productId);
        QuantityOfUnique(items, k);
      }
    }
  }

  /** With one line per product, the units of a product across the lines
      are those of its line. */
  lemma {:induction false} QuantityOfUnique(items: seq<SaleItem>, k: nat)
    requires k < |items|
    requires forall i, j :: 0 <= i < j < |items| ==> items[i].productId != items[j].productId
    ensures QuantityOf(items, items[k].productId) == items[k].quantity
  {
    var init := items[..|items| - 1];
    var pid := items[k].productId;
    if k == |items| - 1 {
      assert !Mentions(init, pid) by {
        forall i | 0 <= i < |init| ensures init[i].productId != pid {
          assert init[i] == items[i];
        }
      }
      QuantityAbsent(init, pid);
    } else {
      assert init[k] == items[k];
      QuantityOfUnique(init, k);
    }
  }

  /** A saved sale is listed at the end of the stored sales of the month
      the report screen opens on, on the same clock. */
  lemma SavedSaleReported(db: Db, customer: Option<Customer>, items: seq<SaleItem>, total: real,
                          clock: Clock, saleId: string, movementIds: seq<string>)
    requires 1 <= clock.month <= 12 && |movementIds| == |items|
    ensures var r := SaveSale(db, customer, items, total, clock, saleId, movementIds);
            var month := Reports.DefaultMonth(clock.year, clock.month);
            r.1.Saved? ==>
              Reports.MonthlySales(r.0.sales, month) == Reports.MonthlySales(db.sales, month) + [r.1.sale]
  {
    var r := SaveSale(db, customer, items, total, clock, saleId, movementIds);
    var month := Reports.DefaultMonth(clock.year, clock.month);
    if r.1.Saved? {
      Lists.FilterConcat(db.sales, [r.1.sale], s => Reports.InMonth(s, month));
    }
  }

  /** `handleSaveSale` of the new-sale screen: the total is the discounted
      subtotal. */
  function SaveDiscountedSale(db: Db, customer: Option<Customer>, items: seq<SaleItem>,
                              discount: Pricing.Discount, clock: Clock, saleId: string,
                              movementIds: seq<string>): (r: (Db, Outcome))
    requires 1 <= clock.month <= 12 && |movementIds| == |items|
    ensures r.1.Saved? ==>
              r.1.sale.total == Pricing.Total(Pricing.Subtotal(items), discount) && r.1.sale.total >= 0.0
    ensures r.1.Rejected? <==> Validate(db, customer, items).Some?
  {
    SaveSale(db, customer, items, Pricing.Total(Pricing.Subtotal(items), discount), clock, saleId, movementIds)
  }

  /** `handleSaveSale` of the sales screen: the total is the plain sum of
      the line totals. */
  function SavePlainSale(db: Db, customer: Option<Customer>, items: seq<SaleItem>, clock: Clock,
                         saleId: string, movementIds: seq<string>): (r: (Db, Outcome))
    requires 1 <= clock.month <= 12 && |movementIds| == |items|
    ensures r.1.Saved? ==> r.1.sale.total == SumTotals(items)
    ensures r.1.Rejected? <==> Validate(db, customer, items).Some?
  {
    SaveSale(db, customer, items, SumTotals(items), clock, saleId, movementIds)
  }

  /** Selling 4 of 10 units leaves 6; asking for 11 is turned down with
      the 10 still in stock reported, and nothing stored. */
  lemma SaleScenario()
    ensures var p := Product("p1", "Yerba", None, 2.0, 10, 2, "Almacen", "t0", "t0");
            var c := Customer("c1", "Ana", "20-1-3", None, None, None, "t0", "t0");
            var db := Db(map["p1" := p], [], []);
            var clock := Clock(2024, 3, "2024-03-05");
            var ok := SaveSale(db, Some(c), [SaleItem("i1", "p1", "Yerba", 4, 2.0, 8.0)], 8.0, clock, "s1", ["m1"]);
            var no := SaveSale(db, Some(c), [SaleItem("i1", "p1", "Yerba", 11, 2.0, 22.0)], 22.0, clock, "s1", ["m1"]);
            && ok.1.Saved? && ok.0.products["p1"].stock == 6 && |ok.0.movements| == 1
            && no == (db, Rejected(StaleStock("Yerba", 10)))
  {
    var p := Product("p1", "Yerba", None, 2.0, 10, 2, "Almacen", "t0", "t0");
    var c := Customer("c1", "Ana", "20-1-3", None, None, None, "t0", "t0");
    var db := Db(map["p1" := p], [], []);
    var clock := Clock(2024, 3, "2024-03-05");
    var items := [SaleItem("i1", "p1", "Yerba", 4, 2.0, 8.0)];
    assert Mentions(items, "p1") by {
      assert items[0].productId == "p1";
    }
    assert QuantityOf(items, "p1") == 4 by {
      assert items[..0] == [];
    }
    var bad := [SaleItem("i1", "p1", "Yerba", 11, 2.0, 22.0)];
    assert FirstShortLine(db, bad) == 0;
  }
}
