/** The sales state container.  Its `addSale` thunk is where a sale
    reaches the database: it stamps the sale, stores it and then lowers
    the stored stock of every product the sale mentions, never below 0. */
module SalesSlice {
  import opened Domain
  import opened Container
  import opened Store

  const FetchError := "Error al cargar ventas"
  const FetchByMonthError := "Error al cargar ventas del mes"
  const AddError := "Error al agregar venta"

  datatype Action =
    | FetchPending
    | FetchFulfilled(sales: seq<Sale>)
    | FetchRejected(message: Option<string>)
    | FetchByMonthPending
    | FetchByMonthFulfilled(sales: seq<Sale>)
    | FetchByMonthRejected(message: Option<string>)
    | AddFulfilled(sale: Sale)
    | AddRejected(message: Option<string>)
    | ClearError

  /** Everything of a sale except the stamped `id` and `createdAt`. */
  function DraftOf(s: Sale): SaleDraft
  {
    SaleDraft(s.customerId, s.customerName, s.customerCuil, s.items, s.total, s.date, s.month, s.year)
  }

  /** The stamping half of `addSale`. */
  function StampSale(draft: SaleDraft, freshId: string, now: string): (s: Sale)
    ensures DraftOf(s) == draft
    ensures s.id == freshId && s.createdAt == now
  {
    Sale(freshId, draft.customerId, draft.customerName, draft.customerCuil, draft.items,
         draft.total, draft.date, draft.month, draft.year, now)
  }

  function Max0(x: int): int
  {
    if x < 0 then 0 else x
  }

  /** One iteration of the stock loop: re-read the product; if it exists,
      store it with `max(0, stock - quantity)` and a fresh `updatedAt`. */
  function DecrementOne(products: map<string, Product>, item: SaleItem, now: string): map<string, Product>
  {
    if item.productId in products then
      var p := products[item.productId];
      products[item.productId := p.(stock := Max0(p.stock - item.quantity), updatedAt := now)]
    else products
  }

  /** The whole stock loop, lines taken in order. */
  function DecrementStock(products: map<string, Product>, items: seq<SaleItem>, now: string)
    : (r: map<string, Product>)
    ensures r.Keys == products.Keys
    ensures forall pid :: pid in products && !Mentions(items, pid) ==> r[pid] == products[pid]
    ensures forall pid :: pid in products && Mentions(items, pid) ==>
              r[pid] == products[pid].(stock := r[pid].stock, updatedAt := now) && r[pid].stock >= 0
  {
    if |items| == 0 then products
    else
      var init := items[..|items| - 1];
      var last := items[|items| - 1];
      var m := DecrementStock(products, init, now);
      MentionsSplit(items);
      DecrementOne(m, last, now)
  }

  /** Because every line re-reads the product, lines for the same product
      add up: with non-negative quantities the stored stock ends at
      `max(0, stock - total quantity sold)`. */
  lemma {:induction false} DecrementIsCumulative(products: map<string, Product>, items: seq<SaleItem>,
                                                 now: string, pid: string)
    requires pid in products && Mentions(items, pid)
    requires forall k :: 0 <= k < |items| ==> items[k].quantity >= 0
    ensures DecrementStock(products, items, now)[pid].stock
            == Max0(products[pid].stock - QuantityOf(items, pid))
  {
    var init := items[..|items| - 1];
    var last := items[|items| - 1];
    var m := DecrementStock(products, init, now);
    MentionsSplit(items);
    if Mentions(init, pid) {
      DecrementIsCumulative(products, init, now, pid);
    } else {
      QuantityAbsent(init, pid);
    }
  }

  /** `addSale` against the database: the stamped sale is stored, and
      each product the sale mentions keeps every field but `stock` and
      `updatedAt`, its stock dropping by the units sold, clamped at 0.
      Products the sale does not mention are untouched. */
  function PersistSale(db: Db, draft: SaleDraft, freshId: string, now: string): (r: (Db, Sale))
    ensures DraftOf(r.1) == draft && r.1.id == freshId && r.1.createdAt == now
    ensures r.0.sales == db.sales + [r.1] && r.0.movements == db.movements
    ensures r.0.products.Keys == db.products.Keys
    ensures forall pid :: pid in db.products && !Mentions(draft.items, pid) ==>
              r.0.products[pid] == db.products[pid]
    ensures forall pid :: pid in db.products && Mentions(draft.items, pid) ==>
              r.0.products[pid] == db.products[pid].(stock := r.0.products[pid].stock, updatedAt := now)
              && r.0.products[pid].stock >= 0
    ensures (forall k :: 0 <= k < |draft.items| ==> draft.items[k].quantity >= 0) ==>
              forall pid :: pid in db.products && Mentions(draft.items, pid) ==>
                r.0.products[pid].stock == Max0(db.products[pid].stock - QuantityOf(draft.items, pid))
  {
    var sale := StampSale(draft, freshId, now);
    var products := DecrementStock(db.products, draft.items, now);
    assert (forall k :: 0 <= k < |draft.items| ==> draft.items[k].quantity >= 0) ==>
             forall pid :: pid in db.products && Mentions(draft.items, pid) ==>
               products[pid].stock == Max0(db.products[pid].stock - QuantityOf(draft.items, pid)) by {
      if forall k :: 0 <= k < |draft.items| ==> draft.items[k].quantity >= 0 {
        forall pid | pid in db.products && Mentions(draft.items, pid) {
          DecrementIsCumulative(db.products, draft.items, now, pid);
        }
      }
    }
    (Db(products, db.sales + [sale], db.movements), sale)
  }

  function Reduce(s: State<Sale>, a: Action): (r: State<Sale>)
    ensures (a.FetchPending? || a.FetchByMonthPending?) ==> r.items == s.items && r.loading && r.error == None
    ensures (a.FetchFulfilled? || a.FetchByMonthFulfilled?) ==>
              r.items == a.sales && !r.loading && r.error == s.error
    ensures a.FetchRejected? ==>
              r.items == s.items && !r.loading && r.error == Some(ErrorText(a.message, FetchError))
    ensures a.FetchByMonthRejected? ==>
              r.items == s.items && !r.loading && r.error == Some(ErrorText(a.message, FetchByMonthError))
    ensures a.AddFulfilled? ==>
              |r.items| == |s.items| + 1 && r.items[0] == a.sale && r.items[1..] == s.items
              && r.loading == s.loading && r.error == s.error
    ensures a.AddRejected? ==>
              r.items == s.items && r.loading == s.loading && r.error == Some(ErrorText(a.message, AddError))
    ensures a.ClearError? ==> r.items == s.items && r.loading == s.loading && r.error == None
  {
    match a
    case FetchPending => Pending(s)
    case FetchFulfilled(ss) => Fetched(s, ss)
    case FetchRejected(m) => FetchFailed(s, m, FetchError)
    case FetchByMonthPending => Pending(s)
    case FetchByMonthFulfilled(ss) => Fetched(s, ss)
    case FetchByMonthRejected(m) => FetchFailed(s, m, FetchByMonthError)
    case AddFulfilled(sale) => WithItems(s, [sale] + s.items)
    case AddRejected(m) => WriteFailed(s, m, AddError)
    case ClearError => Cleared(s)
  }
}
