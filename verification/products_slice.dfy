/** The products state container: the thunks that stamp identity and
    timestamps, and the reducer over their pending/fulfilled/rejected
    actions. */
module ProductsSlice {
  import opened Domain
  import opened Container
  import Lists

  const FetchError := "Error al cargar productos"
  const AddError := "Error al agregar producto"
  const UpdateError := "Error al actualizar producto"
  const DeleteError := "Error al eliminar producto"

  datatype Action =
    | FetchPending
    | FetchFulfilled(products: seq<Product>)
    | FetchRejected(message: Option<string>)
    | AddFulfilled(product: Product)
    | AddRejected(message: Option<string>)
    | UpdateFulfilled(product: Product)
    | UpdateRejected(message: Option<string>)
    | DeleteFulfilled(id: string)
    | DeleteRejected(message: Option<string>)
    | ClearError

  function Key(p: Product): string
  {
    p.id
  }

  /** The user-editable part of a product: everything but the id and the
      two timestamps. */
  function DraftOf(p: Product): ProductDraft
  {
    ProductDraft(p.name, p.description, p.price, p.stock, p.minStock, p.category)
  }

  /** `addProduct`: the draft plus a fresh id, created and updated "now". */
  function AddProduct(draft: ProductDraft, freshId: string, now: string): (p: Product)
    ensures DraftOf(p) == draft
    ensures p.id == freshId
    ensures p.createdAt == now && p.updatedAt == now
  {
    Product(freshId, draft.name, draft.description, draft.price, draft.stock,
            draft.minStock, draft.category, now, now)
  }

  /** `updateProduct`: only `updatedAt` is refreshed. */
  function UpdateProduct(p: Product, now: string): (r: Product)
    ensures DraftOf(r) == DraftOf(p)
    ensures r.id == p.id && r.createdAt == p.createdAt
    ensures r.updatedAt == now
  {
    p.(updatedAt := now)
  }

  function Reduce(s: State<Product>, a: Action): (r: State<Product>)
    ensures a.FetchPending? ==> r.items == s.items && r.loading && r.error == None
    ensures a.FetchFulfilled? ==> r.items == a.products && !r.loading && r.error == s.error
    ensures a.FetchRejected? ==>
              r.items == s.items && !r.loading && r.error == Some(ErrorText(a.message, FetchError))
    ensures a.AddFulfilled? ==>
              r.items == s.items + [a.product] && r.loading == s.loading && r.error == s.error
    ensures a.UpdateFulfilled? ==>
              && |r.items| == |s.items| && r.loading == s.loading && r.error == s.error
              && var i := Lists.IndexOf(s.items, Key, a.product.id);
                 (i == -1 ==> r.items == s.items)
                 && (i != -1 ==> r.items[i] == a.product
                                 && forall j :: 0 <= j < |s.items| && j != i ==> r.items[j] == s.items[j])
    ensures a.DeleteFulfilled? ==>
              && r.loading == s.loading && r.error == s.error
              && (forall j :: 0 <= j < |r.items| ==> r.items[j] in s.items && r.items[j].id != a.id)
              && (forall j :: 0 <= j < |s.items| && s.items[j].id != a.id ==> s.items[j] in r.items)
    ensures a.AddRejected? ==>
              r.items == s.items && r.loading == s.loading && r.error == Some(ErrorText(a.message, AddError))
    ensures a.UpdateRejected? ==>
              r.items == s.items && r.loading == s.loading && r.error == Some(ErrorText(a.message, UpdateError))
    ensures a.DeleteRejected? ==>
              r.items == s.items && r.loading == s.loading && r.error == Some(ErrorText(a.message, DeleteError))
    ensures a.ClearError? ==> r.items == s.items && r.loading == s.loading && r.error == None
  {
    match a
    case FetchPending => Pending(s)
    case FetchFulfilled(ps) => Fetched(s, ps)
    case FetchRejected(m) => FetchFailed(s, m, FetchError)
    case AddFulfilled(p) => WithItems(s, s.items + [p])
    case AddRejected(m) => WriteFailed(s, m, AddError)
    case UpdateFulfilled(p) => WithItems(s, Lists.ReplaceFirst(s.items, Key, p))
    case UpdateRejected(m) => WriteFailed(s, m, UpdateError)
    case DeleteFulfilled(id) => WithItems(s, Lists.RemoveAll(s.items, Key, id))
    case DeleteRejected(m) => WriteFailed(s, m, DeleteError)
    case ClearError => Cleared(s)
  }

  /** A fetch that starts and succeeds leaves exactly the payload, not
      loading and with no error, whatever the state was before. */
  lemma FetchCycle(s: State<Product>, payload: seq<Product>)
    ensures Reduce(Reduce(s, FetchPending), FetchFulfilled(payload)) == State(payload, false, None)
  {
  }

  /** Adding a product with a fresh id and then deleting that id restores
      the list. */
  lemma AddThenDelete(s: State<Product>, p: Product)
    requires forall j :: 0 <= j < |s.items| ==> s.items[j].id != p.id
    ensures Reduce(Reduce(s, AddFulfilled(p)), DeleteFulfilled(p.id)) == s
  {
    Lists.RemoveAllConcat(s.items, [p], Key, p.id);
    Lists.RemoveAllAbsent(s.items, Key, p.id);
  }

  /** Deleting keeps every other product where it was: a survivor `x`
      stays after whatever survives before it and before whatever
      survives after it. */
  lemma DeleteKeepsOrder(s: State<Product>, front: seq<Product>, x: Product, back: seq<Product>, id: string)
    requires s.items == front + [x] + back && x.id != id
    ensures Reduce(s, DeleteFulfilled(id)).items
            == Lists.RemoveAll(front, Key, id) + [x] + Lists.RemoveAll(back, Key, id)
  {
    Lists.RemoveAllConcat(front + [x], back, Key, id);
    Lists.RemoveAllConcat(front, [x], Key, id);
  }

  /** After an update of a listed product, looking it up by id returns the
      updated value. */
  lemma UpdateThenFind(s: State<Product>, p: Product)
    requires exists j :: 0 <= j < |s.items| && s.items[j].id == p.id
    ensures FindProduct(Reduce(s, UpdateFulfilled(p)).items, p.id) == Some(p)
  {
    var i := Lists.IndexOf(s.items, Key, p.id);
    var r := Reduce(s, UpdateFulfilled(p)).items;
    FindProductAt(r, i, p);
  }
}
