/** The stock screen's manual movement: the form is checked, then an
    entry goes into the movement ledger and the product is stored with
    its stock raised (IN) or lowered (OUT) by the quantity. */
module StockAdjustment {
  import opened Domain
  import opened Store
  import opened Input
  import ProductsSlice
  import StockMovementsSlice

  /** The movement dialog: the type toggle, the quantity box and the
      reason box. */
  datatype MovementForm = MovementForm(kind: MovementType, quantity: Field<int>, reason: string)

  datatype AdjustError =
    | IncompleteFields   // no product, or an empty quantity or reason
    | NotPositive        // the quantity is not a number, or is 0 or less
    | NotEnoughStock     // an OUT movement larger than the stock

  /** What an accepted form asks for: the ledger entry and the product as
      it is to be stored. */
  datatype Adjustment = Adjustment(movement: MovementDraft, product: Product)

  datatype Plan = Rejected(error: AdjustError) | Accepted(adjustment: Adjustment)

  /** The change a movement makes to the stock: up for IN, down for OUT. */
  function Signed(kind: MovementType, quantity: int): int
  {
    if kind == In then quantity else -quantity
  }

  predicate Incomplete(selected: Option<Product>, form: MovementForm)
  {
    selected.None? || form.quantity.Blank? || form.reason == ""
  }

  /** The checks of `handleSaveMovement`, in their order, and the
      movement and product update it then dispatches. */
  function PlanAdjustment(selected: Option<Product>, form: MovementForm, date: string): (r: Plan)
    ensures r == Rejected(IncompleteFields) <==> Incomplete(selected, form)
    ensures r == Rejected(NotPositive) <==>
              !Incomplete(selected, form) && (form.quantity.Invalid? || form.quantity.value <= 0)
    ensures r == Rejected(NotEnoughStock) <==>
              && !Incomplete(selected, form) && form.quantity.Parsed? && form.quantity.value > 0
              && form.kind == Out && form.quantity.value > selected.value.stock
    ensures r.Accepted? ==>
              var p := selected.value;
              var q := form.quantity.value;
              var a := r.adjustment;
              && q > 0
              && a.movement == MovementDraft(p.id, p.name, form.kind, q, form.reason, date)
              && ProductsSlice.DraftOf(a.product) == ProductsSlice.DraftOf(p).(stock := a.product.stock)
              && a.product.id == p.id && a.product.createdAt == p.createdAt && a.product.updatedAt == p.updatedAt
              && a.product.stock == p.stock + Signed(form.kind, q)
              && (p.stock >= 0 ==> a.product.stock >= 0)
  {
    if Incomplete(selected, form) then Rejected(IncompleteFields)
    else if form.quantity.Invalid? || form.quantity.value <= 0 then Rejected(NotPositive)
    else
      var p := selected.value;
      var q := form.quantity.value;
      if form.kind == Out && q > p.stock then Rejected(NotEnoughStock)
      else
        var newStock := if form.kind == In then p.stock + q else p.stock - q;
        Accepted(Adjustment(MovementDraft(p.id, p.name, form.kind, q, form.reason, date),
                            p.(stock := newStock)))
  }

  /** `database.updateProduct`: an UPDATE keyed by id, which does nothing
      when the row is gone. It sets every column but `id` and `createdAt`,
      so the stored creation time survives whatever the copy carries. */
  function StoreProduct(db: Db, p: Product): (r: Db)
    ensures r.sales == db.sales && r.movements == db.movements
    ensures r.products.Keys == db.products.Keys
    ensures p.id in db.products ==>
              && ProductsSlice.DraftOf(r.products[p.id]) == ProductsSlice.DraftOf(p)
              && r.products[p.id].id == p.id
              && r.products[p.id].updatedAt == p.updatedAt
              && r.products[p.id].createdAt == db.products[p.id].createdAt
    ensures forall id :: id in db.products && id != p.id ==> r.products[id] == db.products[id]
  {
    if p.id in db.products then
      db.(products := db.products[p.id := p.(createdAt := db.products[p.id].createdAt)])
    else db
  }

  /** Reading the product back after the UPDATE gives the stored copy
      with its original creation time, or still nothing when the row was
      gone. */
  lemma StoreThenGet(db: Db, p: Product)
    ensures GetProductById(StoreProduct(db, p), p.id)
            == if p.id in db.products then Some(p.(createdAt := db.products[p.id].createdAt)) else None
  {
  }

  /** The two dispatches: the movement goes into the ledger, then the
      product is updated (with a fresh `updatedAt`). */
  function Commit(db: Db, a: Adjustment, freshId: string, now: string): (r: (Db, StockMovement))
    ensures StockMovementsSlice.DraftOf(r.1) == a.movement && r.1.id == freshId && r.1.createdAt == now
    ensures r.0.movements == db.movements + [r.1] && r.0.sales == db.sales
    ensures r.0.products.Keys == db.products.Keys
    ensures a.product.id in db.products ==>
              r.0.products[a.product.id]
              == a.product.(updatedAt := now, createdAt := db.products[a.product.id].createdAt)
    ensures forall id :: id in db.products && id != a.product.id ==> r.0.products[id] == db.products[id]
  {
    var (db1, m) := StockMovementsSlice.PersistMovement(db, a.movement, freshId, now);
    (StoreProduct(db1, ProductsSlice.UpdateProduct(a.product, now)), m)
  }

  datatype Outcome = Refused(error: AdjustError) | Recorded(movement: StockMovement)

  /** `handleSaveMovement` end to end. */
  function SaveMovement(db: Db, selected: Option<Product>, form: MovementForm, date: string,
                        freshId: string, now: string): (r: (Db, Outcome))
    ensures r.1.Refused? <==> PlanAdjustment(selected, form, date).Rejected?
    ensures r.1.Refused? ==> r.0 == db && r.1.error == PlanAdjustment(selected, form, date).error
    ensures r.1.Recorded? ==> r.0.movements == db.movements + [r.1.movement] && r.0.sales == db.sales
  {
    match PlanAdjustment(selected, form, date)
    case Rejected(e) => (db, Refused(e))
    case Accepted(a) =>
      var (db1, m) := Commit(db, a, freshId, now);
      (db1, Recorded(m))
  }

  /** The recorded movement accounts for the stock change: the stored
      stock is the selected product's stock moved by the signed quantity
      of the ledger entry, and never negative. */
  lemma MovementExplainsStock(db: Db, p: Product, form: MovementForm, date: string,
                              freshId: string, now: string)
    requires p.id in db.products && p.stock >= 0
    ensures var r := SaveMovement(db, Some(p), form, date, freshId, now);
            r.1.Recorded? ==>
              && r.1.movement.productId == p.id
              && r.0.products[p.id].stock == p.stock + Signed(r.1.movement.kind, r.1.movement.quantity)
              && r.0.products[p.id].stock >= 0
              && r.0.products[p.id]
                 == p.(stock := r.0.products[p.id].stock, updatedAt := now,
                       createdAt := db.products[p.id].createdAt)
  {
    var plan := PlanAdjustment(Some(p), form, date);
    if plan.Accepted? {
      var c := Commit(db, plan.adjustment, freshId, now);
      assert c.1.productId == plan.adjustment.movement.productId;
      assert c.1.kind == form.kind && c.1.quantity == form.quantity.value;
    }
  }

  /** The new stock is worked out from the screen's copy of the product,
      not from the stored row: whatever the database holds for the
      product, the stored stock ends the same. */
  lemma StoredStockFromScreenCopy(db1: Db, db2: Db, p: Product, form: MovementForm, date: string,
                                  freshId: string, now: string)
    requires p.id in db1.products && p.id in db2.products
    ensures var r1 := SaveMovement(db1, Some(p), form, date, freshId, now);
            var r2 := SaveMovement(db2, Some(p), form, date, freshId, now);
            r1.1 == r2.1
            && (r1.1.Recorded? ==>
                  r1.0.products[p.id].(createdAt := p.createdAt)
                  == r2.0.products[p.id].(createdAt := p.createdAt))
  {
  }
}
