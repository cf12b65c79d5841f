/** The customers state container: the thunks that stamp identity and
    timestamps, and the reducer over their pending/fulfilled/rejected
    actions. */
module CustomersSlice {
  import opened Domain
  import opened Container
  import Lists

  const FetchError := "Error al cargar clientes"
  const AddError := "Error al agregar cliente"
  const UpdateError := "Error al actualizar cliente"
  const DeleteError := "Error al eliminar cliente"

  datatype Action =
    | FetchPending
    | FetchFulfilled(customers: seq<Customer>)
    | FetchRejected(message: Option<string>)
    | AddFulfilled(customer: Customer)
    | AddRejected(message: Option<string>)
    | UpdateFulfilled(customer: Customer)
    | UpdateRejected(message: Option<string>)
    | DeleteFulfilled(id: string)
    | DeleteRejected(message: Option<string>)
    | ClearError

  function Key(c: Customer): string
  {
    c.id
  }

  /** The user-editable part of a customer. */
  function DraftOf(c: Customer): CustomerDraft
  {
    CustomerDraft(c.name, c.cuil, c.phone, c.email, c.address)
  }

  /** `addCustomer`: the draft plus a fresh id, created and updated "now". */
  function AddCustomer(draft: CustomerDraft, freshId: string, now: string): (c: Customer)
    ensures DraftOf(c) == draft
    ensures c.id == freshId
    ensures c.createdAt == now && c.updatedAt == now
  {
    Customer(freshId, draft.name, draft.cuil, draft.phone, draft.email, draft.address, now, now)
  }

  /** `updateCustomer`: only `updatedAt` is refreshed. */
  function UpdateCustomer(c: Customer, now: string): (r: Customer)
    ensures DraftOf(r) == DraftOf(c)
    ensures r.id == c.id && r.createdAt == c.createdAt
    ensures r.updatedAt == now
  {
    c.(updatedAt := now)
  }

  function Reduce(s: State<Customer>, a: Action): (r: State<Customer>)
    ensures a.FetchPending? ==> r.items == s.items && r.loading && r.error == None
    ensures a.FetchFulfilled? ==> r.items == a.customers && !r.loading && r.error == s.error
    ensures a.FetchRejected? ==>
              r.items == s.items && !r.loading && r.error == Some(ErrorText(a.message, FetchError))
    ensures a.AddFulfilled? ==>
              r.items == s.items + [a.customer] && r.loading == s.loading && r.error == s.error
    ensures a.UpdateFulfilled? ==>
              && |r.items| == |s.items| && r.loading == s.loading && r.error == s.error
              && var i := Lists.IndexOf(s.items, Key, a.customer.id);
                 (i == -1 ==> r.items == s.items)
                 && (i != -1 ==> r.items[i] == a.customer
                                 && forall j :: 0 <= j < |s.items| && j != i ==> r.items[j] == s.items[j])
    ensures a.DeleteFulfilled? ==>
              && r.loading == s.loading && r.error == s.error
              && (forall j :: 0 <= j < |r.items| ==> r.items[j] in s.items && r.items[j].id != a.id)
              && (forall j :: 0 <= j < |s.items| && s.items[j].id != a.id ==> s.items[j] in r.items)
    ensures a.AddRejected? ==>
              r.items == s.items && r.loading == s.loading && r.error == Some(ErrorText(a.message, AddError))
    ensures a.UpdateRejected? ==>
              r.items == s.items && r.loading == s.loading && r.error == Some(ErrorText(a.message, UpdateError))
    ensures a.DeleteRejected? ==>
              r.items == s.items && r.loading == s.loading && r.error == Some(ErrorText(a.message, DeleteError))
    ensures a.ClearError? ==> r.items == s.items && r.loading == s.loading && r.error == None
  {
    match a
    case FetchPending => Pending(s)
    case FetchFulfilled(cs) => Fetched(s, cs)
    case FetchRejected(m) => FetchFailed(s, m, FetchError)
    case AddFulfilled(c) => WithItems(s, s.items + [c])
    case AddRejected(m) => WriteFailed(s, m, AddError)
    case UpdateFulfilled(c) => WithItems(s, Lists.ReplaceFirst(s.items, Key, c))
    case UpdateRejected(m) => WriteFailed(s, m, UpdateError)
    case DeleteFulfilled(id) => WithItems(s, Lists.RemoveAll(s.items, Key, id))
    case DeleteRejected(m) => WriteFailed(s, m, DeleteError)
    case ClearError => Cleared(s)
  }

  /** A fetch that starts and fails keeps the list and reports the message
      (or the default text), no longer loading. */
  lemma FetchFailureCycle(s: State<Customer>, message: Option<string>)
    ensures var r := Reduce(Reduce(s, FetchPending), FetchRejected(message));
            r.items == s.items && !r.loading && r.error == Some(ErrorText(message, FetchError))
  {
  }

  /** Adding a customer with a fresh id and then deleting that id restores
      the list. */
  lemma AddThenDelete(s: State<Customer>, c: Customer)
    requires forall j :: 0 <= j < |s.items| ==> s.items[j].id != c.id
    ensures Reduce(Reduce(s, AddFulfilled(c)), DeleteFulfilled(c.id)) == s
  {
    Lists.RemoveAllConcat(s.items, [c], Key, c.id);
    Lists.RemoveAllAbsent(s.items, Key, c.id);
  }

  /** Deleting keeps the survivors in their original order: deleting from a
      list split in two is deleting from each half. */
  lemma DeleteKeepsOrder(s: State<Customer>, front: seq<Customer>, back: seq<Customer>, id: string)
    requires s.items == front + back
    ensures Reduce(s, DeleteFulfilled(id)).items
            == Lists.RemoveAll(front, Key, id) + Lists.RemoveAll(back, Key, id)
  {
    Lists.RemoveAllConcat(front, back, Key, id);
  }
}
