/** The on-device database, abstracted to what the workflows read and
    write: products keyed by id, and the sales and stock-movement tables
    (in insertion order). */
module Store {
  import opened Domain

  datatype Db = Db(products: map<string, Product>, sales: seq<Sale>, movements: seq<StockMovement>)

  /** `getProductById`: the stored row, or nothing. */
  function GetProductById(db: Db, id: string): (r: Option<Product>)
    ensures r.Some? <==> id in db.products
    ensures r.Some? ==> r.value == db.products[id]
  {
    if id in db.products then Some(db.products[id]) else None
  }
}
