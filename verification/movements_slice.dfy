/** The stock-movements state container: an append-only ledger, newest
    entry first. */
module StockMovementsSlice {
  import opened Domain
  import opened Container
  import opened Store

  const FetchError := "Error al cargar movimientos de stock"
  const AddError := "Error al agregar movimiento de stock"

  datatype Action =
    | FetchPending
    | FetchFulfilled(movements: seq<StockMovement>)
    | FetchRejected(message: Option<string>)
    | AddFulfilled(movement: StockMovement)
    | AddRejected(message: Option<string>)
    | ClearError

  function DraftOf(m: StockMovement): MovementDraft
  {
    MovementDraft(m.productId, m.productName, m.kind, m.quantity, m.reason, m.date)
  }

  /** The stamping half of `addStockMovement`: only `id` and `createdAt`
      are added. */
  function StampMovement(draft: MovementDraft, freshId: string, now: string): (m: StockMovement)
    ensures DraftOf(m) == draft
    ensures m.id == freshId && m.createdAt == now
  {
    StockMovement(freshId, draft.productId, draft.productName, draft.kind, draft.quantity,
                  draft.reason, draft.date, now)
  }

  /** `addStockMovement` against the database: one row appended, nothing
      else touched. */
  function PersistMovement(db: Db, draft: MovementDraft, freshId: string, now: string): (r: (Db, StockMovement))
    ensures DraftOf(r.1) == draft && r.1.id == freshId && r.1.createdAt == now
    ensures r.0.movements == db.movements + [r.1]
    ensures r.0.products == db.products && r.0.sales == db.sales
  {
    var m := StampMovement(draft, freshId, now);
    (db.(movements := db.movements + [m]), m)
  }

  function Reduce(s: State<StockMovement>, a: Action): (r: State<StockMovement>)
    ensures a.FetchPending? ==> r.items == s.items && r.loading && r.error == None
    ensures a.FetchFulfilled? ==> r.items == a.movements && !r.loading && r.error == s.error
    ensures a.FetchRejected? ==>
              r.items == s.items && !r.loading && r.error == Some(ErrorText(a.message, FetchError))
    ensures a.AddFulfilled? ==>
              |r.items| == |s.items| + 1 && r.items[0] == a.movement && r.items[1..] == s.items
              && r.loading == s.loading && r.error == s.error
    ensures a.AddRejected? ==>
              r.items == s.items && r.loading == s.loading && r.error == Some(ErrorText(a.message, AddError))
    ensures a.ClearError? ==> r.items == s.items && r.loading == s.loading && r.error == None
  {
    match a
    case FetchPending => Pending(s)
    case FetchFulfilled(ms) => Fetched(s, ms)
    case FetchRejected(m) => FetchFailed(s, m, FetchError)
    case AddFulfilled(m) => WithItems(s, [m] + s.items)
    case AddRejected(m) => WriteFailed(s, m, AddError)
    case ClearError => Cleared(s)
  }

  /** Dispatches the actions in order. */
  function ReduceAll(s: State<StockMovement>, actions: seq<Action>): State<StockMovement>
    decreases |actions|
  {
    if |actions| == 0 then s else ReduceAll(Reduce(s, actions[0]), actions[1..])
  }

  /** Between fetches the ledger only grows at the front: after any run of
      actions that contains no fetch result, the old entries are still
      there, in order, at the end of the list. */
  lemma {:induction false} LedgerOnlyGrows(s: State<StockMovement>, actions: seq<Action>)
    requires forall k :: 0 <= k < |actions| ==> !actions[k].FetchFulfilled?
    ensures var r := ReduceAll(s, actions);
            |r.items| >= |s.items| && r.items[|r.items| - |s.items|..] == s.items
    decreases |actions|
  {
    if |actions| > 0 {
      var s1 := Reduce(s, actions[0]);
      LedgerOnlyGrows(s1, actions[1..]);
      var r := ReduceAll(s1, actions[1..]);
      assert r.items[|r.items| - |s1.items|..] == s1.items;
      if actions[0].AddFulfilled? {
        assert s1.items[1..] == s.items;
        assert r.items[|r.items| - |s.items|..] == s1.items[1..];
      }
    }
  }
}
