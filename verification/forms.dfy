/** The product and customer dialogs: which forms are accepted, and the
    record each accepted form turns into (a new draft, or the record being
    edited with the form's fields laid over it). */
module Forms {
  import opened Domain
  import opened Input
  import ProductsSlice
  import CustomersSlice

  // ---------------------------------------------------------------------
  // Products

  /** The product dialog: text boxes for name, description and category,
      numeric boxes for price, stock and minimum stock. */
  datatype ProductForm = ProductForm(
    name: string,
    description: string,
    price: Field<real>,
    stock: Field<int>,
    minStock: Field<int>,
    category: string)

  datatype ProductFormError =
    | MissingFields   // a required box is empty
    | BadPrice        // not a number, or not above 0
    | BadStock        // not a number, or below 0
    | BadMinStock     // not a number, or below 0

  datatype ProductSave =
    | ProductRefused(error: ProductFormError)
    | CreateProduct(draft: ProductDraft)
    | ChangeProduct(product: Product)

  predicate ProductFormIncomplete(f: ProductForm)
  {
    f.name == "" || f.price.Blank? || f.stock.Blank? || f.minStock.Blank? || f.category == ""
  }

  /** The record the form describes: every box, the description kept as
      typed (an empty one included). */
  function FormDraft(f: ProductForm): ProductDraft
    requires f.price.Parsed? && f.stock.Parsed? && f.minStock.Parsed?
  {
    ProductDraft(f.name, Some(f.description), f.price.value, f.stock.value, f.minStock.value, f.category)
  }

  /** The product fields every accepted form guarantees. */
  predicate WellFormedDraft(d: ProductDraft)
  {
    d.name != "" && d.category != "" && d.price > 0.0 && d.stock >= 0 && d.minStock >= 0
  }

  /** `handleSaveProduct`: the four checks in their order; then a new
      product, or the edited one with the form laid over it (same id and
      timestamps). */
  function SaveProduct(editing: Option<Product>, f: ProductForm): (r: ProductSave)
    ensures r == ProductRefused(MissingFields) <==> ProductFormIncomplete(f)
    ensures r == ProductRefused(BadPrice) <==>
              !ProductFormIncomplete(f) && (f.price.Invalid? || f.price.value <= 0.0)
    ensures r == ProductRefused(BadStock) <==>
              && !ProductFormIncomplete(f) && f.price.Parsed? && f.price.value > 0.0
              && (f.stock.Invalid? || f.stock.value < 0)
    ensures r == ProductRefused(BadMinStock) <==>
              && !ProductFormIncomplete(f) && f.price.Parsed? && f.price.value > 0.0
              && f.stock.Parsed? && f.stock.value >= 0
              && (f.minStock.Invalid? || f.minStock.value < 0)
    ensures r.CreateProduct? <==> editing.None? && !r.ProductRefused?
    ensures r.CreateProduct? ==> r.draft == FormDraft(f) && WellFormedDraft(r.draft)
    ensures r.ChangeProduct? ==>
              && ProductsSlice.DraftOf(r.product) == FormDraft(f)
              && WellFormedDraft(FormDraft(f))
              && r.product.id == editing.value.id
              && r.product.createdAt == editing.value.createdAt
              && r.product.updatedAt == editing.value.updatedAt
  {
    if ProductFormIncomplete(f) then ProductRefused(MissingFields)
    else if f.price.Invalid? || f.price.value <= 0.0 then ProductRefused(BadPrice)
    else if f.stock.Invalid? || f.stock.value < 0 then ProductRefused(BadStock)
    else if f.minStock.Invalid? || f.minStock.value < 0 then ProductRefused(BadMinStock)
    else
      var d := FormDraft(f);
      match editing
      case None => CreateProduct(d)
      case Some(p) =>
        ChangeProduct(p.(name := d.name, description := d.description, price := d.price,
                         stock := d.stock, minStock := d.minStock, category := d.category))
  }

  /** `handleEditProduct`: the dialog filled from a stored product. */
  function EditProductForm(p: Product): (f: ProductForm)
    ensures f.price == Parsed(p.price) && f.stock == Parsed(p.stock) && f.minStock == Parsed(p.minStock)
    ensures f.name == p.name && f.category == p.category && f.description == OrEmpty(p.description)
  {
    ProductForm(p.name, OrEmpty(p.description), Parsed(p.price), Parsed(p.stock), Parsed(p.minStock), p.category)
  }

  /** Opening a well-formed product and saving without touching anything
      gives the product back, except that a missing description comes
      back as an empty one. */
  lemma EditProductRoundTrip(p: Product)
    requires WellFormedDraft(ProductsSlice.DraftOf(p))
    ensures SaveProduct(Some(p), EditProductForm(p)) == ChangeProduct(p.(description := Some(OrEmpty(p.description))))
    ensures p.description.Some? ==> SaveProduct(Some(p), EditProductForm(p)) == ChangeProduct(p)
  {
  }

  /** A product created from an accepted form satisfies the form's rules. */
  lemma CreatedProductWellFormed(f: ProductForm, freshId: string, now: string)
    requires SaveProduct(None, f).CreateProduct?
    ensures var p := ProductsSlice.AddProduct(SaveProduct(None, f).draft, freshId, now);
            WellFormedDraft(ProductsSlice.DraftOf(p)) && p.description == Some(f.description)
  {
  }

  // ---------------------------------------------------------------------
  // Customers

  datatype CustomerForm = CustomerForm(name: string, cuil: string, phone: string, email: string, address: string)

  datatype CustomerSave =
    | CustomerRefused
    | CreateCustomer(draft: CustomerDraft)
    | ChangeCustomer(customer: Customer)

  /** The record the form describes: empty optional boxes become absent. */
  function CustomerFormDraft(f: CustomerForm): (d: CustomerDraft)
    ensures d.name == f.name && d.cuil == f.cuil
    ensures d.phone.None? <==> f.phone == ""
    ensures d.email.None? <==> f.email == ""
    ensures d.address.None? <==> f.address == ""
    ensures d.phone.Some? ==> d.phone.value == f.phone
    ensures d.email.Some? ==> d.email.value == f.email
    ensures d.address.Some? ==> d.address.value == f.address
  {
    CustomerDraft(f.name, f.cuil, Optional(f.phone), Optional(f.email), Optional(f.address))
  }

  /** `handleSaveCustomer`: name and CUIL are required; then a new
      customer, or the edited one with the form laid over it (same id and
      timestamps). */
  function SaveCustomer(editing: Option<Customer>, f: CustomerForm): (r: CustomerSave)
    ensures r.CustomerRefused? <==> f.name == "" || f.cuil == ""
    ensures r.CreateCustomer? <==> editing.None? && !r.CustomerRefused?
    ensures r.CreateCustomer? ==> r.draft == CustomerFormDraft(f)
    ensures r.ChangeCustomer? ==>
              && CustomersSlice.DraftOf(r.customer) == CustomerFormDraft(f)
              && r.customer.id == editing.value.id
              && r.customer.createdAt == editing.value.createdAt
              && r.customer.updatedAt == editing.value.updatedAt
  {
    if f.name == "" || f.cuil == "" then CustomerRefused
    else
      var d := CustomerFormDraft(f);
      match editing
      case None => CreateCustomer(d)
      case Some(c) =>
        ChangeCustomer(c.(name := d.name, cuil := d.cuil, phone := d.phone, email := d.email, address := d.address))
  }

  /** `handleEditCustomer`: the dialog filled from a stored customer. */
  function EditCustomerForm(c: Customer): (f: CustomerForm)
    ensures f.name == c.name && f.cuil == c.cuil
    ensures f.phone == OrEmpty(c.phone) && f.email == OrEmpty(c.email) && f.address == OrEmpty(c.address)
  {
    CustomerForm(c.name, c.cuil, OrEmpty(c.phone), OrEmpty(c.email), OrEmpty(c.address))
  }

  /** Opening a customer and saving without touching anything gives the
      customer back, as long as no optional field was stored empty. */
  lemma EditCustomerRoundTrip(c: Customer)
    requires c.name != "" && c.cuil != ""
    requires c.phone != Some("") && c.email != Some("") && c.address != Some("")
    ensures SaveCustomer(Some(c), EditCustomerForm(c)) == ChangeCustomer(c)
  {
    OptionalRoundTrip(c.phone);
    OptionalRoundTrip(c.email);
    OptionalRoundTrip(c.address);
  }

  /** A form with a blank optional box never stores an empty string. */
  lemma SavedCustomerHasNoEmptyFields(editing: Option<Customer>, f: CustomerForm)
    ensures var r := SaveCustomer(editing, f);
            r.ChangeCustomer? ==>
              r.customer.phone != Some("") && r.customer.email != Some("") && r.customer.address != Some("")
  {
  }
}
