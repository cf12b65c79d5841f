/** Entities of the point-of-sale and inventory application.

    Money (prices, totals) is an exact `real`; quantities and stock levels
    are `int`.  Identifiers and timestamps are opaque strings produced
    outside the model (fresh ids and "now" are always parameters). */
module Domain {

  datatype Option<+T> = None | Some(value: T)

  datatype Product = Product(
    id: string,
    name: string,
    description: Option<string>,
    price: real,
    stock: int,
    minStock: int,
    category: string,
    createdAt: string,
    updatedAt: string)

  /** A product as submitted by the product form, before the store stamps
      identity and timestamps on it. */
  datatype ProductDraft = ProductDraft(
    name: string,
    description: Option<string>,
    price: real,
    stock: int,
    minStock: int,
    category: string)

  datatype Customer = Customer(
    id: string,
    name: string,
    cuil: string,
    phone: Option<string>,
    email: Option<string>,
    address: Option<string>,
    createdAt: string,
    updatedAt: string)

  datatype CustomerDraft = CustomerDraft(
    name: string,
    cuil: string,
    phone: Option<string>,
    email: Option<string>,
    address: Option<string>)

  /** One cart line / sale line.  `unitPrice` is a snapshot of the
      product's price when the line was created. */
  datatype SaleItem = SaleItem(
    id: string,
    productId: string,
    productName: string,
    quantity: int,
    unitPrice: real,
    total: real)

  datatype Sale = Sale(
    id: string,
    customerId: string,
    customerName: string,
    customerCuil: string,
    items: seq<SaleItem>,
    total: real,
    date: string,
    month: string,
    year: int,
    createdAt: string)

  /** A sale before the sales container stamps `id` and `createdAt`. */
  datatype SaleDraft = SaleDraft(
    customerId: string,
    customerName: string,
    customerCuil: string,
    items: seq<SaleItem>,
    total: real,
    date: string,
    month: string,
    year: int)

  datatype MovementType = In | Out

  datatype StockMovement = StockMovement(
    id: string,
    productId: string,
    productName: string,
    kind: MovementType,
    quantity: int,
    reason: string,
    date: string,
    createdAt: string)

  datatype MovementDraft = MovementDraft(
    productId: string,
    productName: string,
    kind: MovementType,
    quantity: int,
    reason: string,
    date: string)

  /** `products.findIndex(p => p.id === id)`: the first position holding
      that id, or -1. */
  function ProductIndex(products: seq<Product>, id: string): (i: int)
    ensures -1 <= i < |products|
    ensures i == -1 <==> forall j :: 0 <= j < |products| ==> products[j].id != id
    ensures 0 <= i ==> products[i].id == id && forall j :: 0 <= j < i ==> products[j].id != id
  {
    if |products| == 0 then -1
    else if products[0].id == id then 0
    else
      var i := ProductIndex(products[1..], id);
      if i == -1 then -1 else i + 1
  }

  /** The first product of `products` with the given id, as `Array.find`
      returns it. */
  function FindProduct(products: seq<Product>, id: string): (r: Option<Product>)
    ensures r.None? <==> forall j :: 0 <= j < |products| ==> products[j].id != id
    ensures r.Some? ==> r.value.id == id && r.value == products[ProductIndex(products, id)]
  {
    var i := ProductIndex(products, id);
    if i == -1 then None else Some(products[i])
  }

  /** A product sitting at `i` with no earlier product of the same id is
      the one `FindProduct` returns. */
  lemma FindProductAt(xs: seq<Product>, i: int, p: Product)
    requires 0 <= i < |xs| && xs[i] == p
    requires forall j :: 0 <= j < i ==> xs[j].id != p.id
    ensures FindProduct(xs, p.id) == Some(p)
  {
    var k := ProductIndex(xs, p.id);
    assert !(k < i) && !(i < k);
  }

  /** The sum of the line totals of a cart or sale. */
  function SumTotals(items: seq<SaleItem>): real
  {
    if |items| == 0 then 0.0 else SumTotals(items[..|items| - 1]) + items[|items| - 1].total
  }

  /** Some line of the sale refers to product `pid`. */
  predicate Mentions(items: seq<SaleItem>, pid: string)
  {
    exists k :: 0 <= k < |items| && items[k].productId == pid
  }

  /** Units of product `pid` across the lines. */
  function QuantityOf(items: seq<SaleItem>, pid: string): int
  {
    if |items| == 0 then 0
    else QuantityOf(items[..|items| - 1], pid)
         + (if items[|items| - 1].productId == pid then items[|items| - 1].quantity else 0)
  }

  lemma MentionsSplit(items: seq<SaleItem>)
    requires |items| > 0
    ensures forall pid :: Mentions(items, pid) <==>
              Mentions(items[..|items| - 1], pid) || items[|items| - 1].productId == pid
  {
    var init := items[..|items| - 1];
    assert forall k :: 0 <= k < |init| ==> init[k] == items[k];
  }

  lemma {:induction false} QuantityAbsent(items: seq<SaleItem>, pid: string)
    requires !Mentions(items, pid)
    ensures QuantityOf(items, pid) == 0
  {
    if |items| > 0 {
      MentionsSplit(items);
      QuantityAbsent(items[..|items| - 1], pid);
    }
  }
}
