# Sales and inventory rules of SistemaMobile_Ventas, in Dafny

SistemaMobile_Ventas is a point-of-sale and stock app for a small shop. It
is written with React Native, Redux Toolkit and SQLite. This project models
its business rules as pure Dafny functions over immutable data, and proves
what the screens and state containers promise.

The modelled rules are:

- the shopping cart of the two sale screens: add, the `+`/`-` buttons, typed
  quantities, removal;
- the discount and total arithmetic of the new-sale screen;
- saving a sale: validation against the stored stock, the stored sale, the
  clamped stock decrement, and one outgoing movement per line;
- the manual stock movement of the stock screen;
- the four state containers (products, customers, sales, stock movements):
  the thunks that stamp ids and timestamps, and their reducers;
- the product and customer dialogs: validation, and how a form becomes a
  record and a record becomes a form;
- the searches, the stock badges and the product filter panel;
- the monthly report: the month picker, the month's sales, totals, distinct
  buyers, top five products and customers, and the low-stock list.

Fresh ids, the clock ("now", the year and month) and the database are
parameters. The database is a value `Store.Db`: products keyed by id, plus
the sales and movement tables. Money is `real` and quantities are `int`. A
numeric text box is `Input.Field<T>`: `Blank` (the empty string), `Invalid`
(text that `parseInt`/`parseFloat` turn into `NaN`) or `Parsed(value)`.

Modules:

| file | module | models |
|---|---|---|
| domain.dfy | Domain | the records of `src/types/index.ts`, and lookups by id |
| text.dfy | Text | `toLowerCase`/`includes`, the "YYYY-MM" month key, string order |
| lists.dfy | Lists | `filter`, `findIndex`, replace-by-id, distinct values |
| input.dfy | Input | form boxes, `s || undefined`, `o || ''`, `parseInt(s) || 0` |
| container.dfy | Container | the shared shape of the state containers |
| products_slice.dfy, customers_slice.dfy, sales_slice.dfy, movements_slice.dfy | ProductsSlice, CustomersSlice, SalesSlice, StockMovementsSlice | thunks and reducers |
| store.dfy | Store | the database tables |
| cart.dfy | Cart | the cart of both sale screens |
| pricing.dfy | Pricing | subtotal, discount, total |
| sale_workflow.dfy | SaleWorkflow | `handleSaveSale` of both sale screens |
| stock_adjustment.dfy | StockAdjustment | `handleSaveMovement` |
| forms.dfy | Forms | the product and customer dialogs |
| catalog.dfy | Catalog | searches, stock badges, the product filter panel |
| reports.dfy | Reports | the monthly report |

A well-formed cart (`Cart.ValidCart`) has at most one line per product and
one line per line id. Every line's product is in the catalog, with
`0 < quantity <= stock`, and `total = quantity * unitPrice`.

## Model

| member | source | states |
|---|---|---|
| Container.ErrorText | src/store/slices/productsSlice.ts:78-81 | a rejected action records its message, or the container's default text when the message is missing or empty |
| ProductsSlice.AddProduct | src/store/slices/productsSlice.ts:25-37 | the new product carries exactly the draft's fields, a fresh id, and equal creation and update times |
| ProductsSlice.UpdateProduct | src/store/slices/productsSlice.ts:39-49 | an update changes only `updatedAt`; id, creation time and every edited field pass through |
| ProductsSlice.Reduce | src/store/slices/productsSlice.ts:61-107 | per action: pending sets loading and clears the error; a fetch result replaces the list; add appends; update replaces the first element with that id in place, or leaves the list as it was; delete keeps exactly the elements with another id; failures only set the error text; clearError only clears it |
| ProductsSlice.FetchCycle | src/store/slices/productsSlice.ts:70-77 | a fetch that starts and succeeds leaves exactly the payload, not loading and without error, from any state |
| ProductsSlice.AddThenDelete | src/store/slices/productsSlice.ts:83-102 | adding a product with a new id and then deleting that id restores the state |
| ProductsSlice.UpdateThenFind | src/store/slices/productsSlice.ts:90-95 | after updating a listed product, looking its id up finds the new value |
| CustomersSlice.AddCustomer | src/store/slices/customersSlice.ts:25-37 | the new customer carries exactly the draft's fields, a fresh id, and equal creation and update times |
| CustomersSlice.UpdateCustomer | src/store/slices/customersSlice.ts:39-49 | an update changes only `updatedAt` |
| CustomersSlice.Reduce | src/store/slices/customersSlice.ts:61-107 | the same per-action behaviour as the products container, with the customers' default messages |
| CustomersSlice.FetchFailureCycle | src/store/slices/customersSlice.ts:70-81 | a fetch that starts and fails keeps the list, stops loading and reports the message or 'Error al cargar clientes' |
| CustomersSlice.AddThenDelete | src/store/slices/customersSlice.ts:83-102 | adding a customer with a new id and then deleting that id restores the state |
| ProductsSlice.DeleteKeepsOrder | src/store/slices/productsSlice.ts:100-102 | a product that survives a delete keeps its place: after the survivors before it and before the survivors after it |
| CustomersSlice.DeleteKeepsOrder | src/store/slices/customersSlice.ts:100-102 | deleting from a list split in two deletes from each half, so the survivors keep their order |
| SalesSlice.StampSale | src/store/slices/salesSlice.ts:34-39 | the stored sale is the input plus a fresh id and creation time, nothing else changed |
| SalesSlice.DecrementStock | src/store/slices/salesSlice.ts:45-58 | every product a line mentions keeps all fields but stock and `updatedAt`, with stock never negative; products no line mentions, and lines whose product is missing, change nothing; no product appears or disappears |
| SalesSlice.DecrementIsCumulative | src/store/slices/salesSlice.ts:45-57 | since each line re-reads the product, the stock ends at max(0, stock - units sold across all its lines) |
| SalesSlice.PersistSale | src/store/slices/salesSlice.ts:32-60 | `addSale` appends the stamped sale to the sales table, leaves the movements alone and lowers each sold product's stock, clamped at 0 |
| SalesSlice.Reduce | src/store/slices/salesSlice.ts:67-108 | both fetches set and clear loading as the other containers do, each with its own default message; a new sale goes in front, the old list following unchanged |
| StockMovementsSlice.StampMovement | src/store/slices/stockMovementsSlice.ts:27-33 | the stored movement is the input plus a fresh id and creation time |
| StockMovementsSlice.PersistMovement | src/database/database.ts:197-203 | recording a movement appends one row and touches no other table |
| StockMovementsSlice.Reduce | src/store/slices/stockMovementsSlice.ts:40-69 | per action, as the other containers; a new movement goes in front |
| StockMovementsSlice.LedgerOnlyGrows | src/store/slices/stockMovementsSlice.ts:62-64 | with no fetch result in between, any run of actions keeps the old ledger, in order, at the end of the list |
| Text.Lower | src/screens/ProductsScreen.tsx:58-61 | lower-casing keeps the length and lower-cases each character |
| Text.Includes | src/screens/ProductsScreen.tsx:58-61 | the left-to-right scan answers true exactly when the query occurs at some position |
| Text.EmptyIncluded | src/screens/StockScreen.tsx:58-61 | the empty query occurs in every string |
| Text.Decimal | src/screens/NuevaVentaScreen.tsx:210 | `String(n)` is a non-empty string of digits without a leading zero |
| Text.DecimalRoundTrip | src/screens/NuevaVentaScreen.tsx:210 | reading the digits back gives the number |
| Text.PadTwo | src/screens/NuevaVentaScreen.tsx:210 | `padStart(2, '0')` makes a string at least two characters long by putting '0's in front: the input ends the result, and everything before it is '0' |
| Text.MonthKey | src/screens/NuevaVentaScreen.tsx:210 | the month key is the year's digits, a dash, and two digits |
| Text.MonthKeyRoundTrip | src/screens/NuevaVentaScreen.tsx:210 | year and month read back from their month key |
| Text.MonthKeyInjective | src/screens/ReportsScreen.tsx:54 | two dates share a month key exactly when year and month agree, so the monthly filter groups by calendar month |
| Text.StrLess | src/screens/ReportsScreen.tsx:41 | the default `sort()` order: a string sorts before a longer one it begins, never after or before one it extends, and never before itself |
| Text.StrLessIrreflexive | src/screens/ReportsScreen.tsx:41 | no string sorts before itself |
| Text.StrLessTransitive | src/screens/ReportsScreen.tsx:41 | the default string order is transitive |
| Text.StrLessTotal | src/screens/ReportsScreen.tsx:41 | of two different strings, one sorts first |
| Text.StrLessAsymmetric | src/screens/ReportsScreen.tsx:41 | two strings never sort before each other |
| Lists.IndexOf | src/store/slices/productsSlice.ts:91 | `findIndex` gives the first position with the key, or -1 exactly when there is none |
| Lists.ReplaceFirst | src/store/slices/productsSlice.ts:90-95 | the length is kept; the first element with the key is replaced and every other one kept; with no match the list is unchanged |
| Lists.ReplaceThenFind | src/store/slices/customersSlice.ts:90-95 | after a replacement the key is found at the same place, holding the new element |
| Lists.Filter | src/screens/ReportsScreen.tsx:54 | `filter` keeps exactly the elements that pass, and no more of them than there were |
| Lists.FilterConcat | src/screens/ReportsScreen.tsx:54 | filtering a concatenation filters each part in order, so survivors keep their order |
| Lists.FilterKeepsAll | src/screens/StockScreen.tsx:58-61 | when every element passes, nothing is dropped |
| Lists.FilterMonotone | src/components/ProductFilters.tsx:31-32 | a weaker test keeps at least as many elements |
| Lists.RemoveAll | src/store/slices/productsSlice.ts:100-102 | delete keeps exactly the elements with another id |
| Lists.RemoveAllIdempotent | src/store/slices/customersSlice.ts:100-102 | deleting an id twice is deleting it once |
| Lists.Distinct | src/components/ProductFilters.tsx:28 | `Array.from(new Set(xs))` holds each value of `xs` once, nothing else, in order of first occurrence |
| Lists.DistinctLength | src/screens/ReportsScreen.tsx:57 | any duplicate-free list of exactly the values of `xs` is as long as `new Set(xs)` |
| Input.Optional | src/screens/CustomersScreen.tsx:108-110 | `s || undefined` is absent exactly for the empty string, and otherwise holds `s` |
| Input.OrEmpty | src/screens/CustomersScreen.tsx:77-79 | `o || ''` is the value, or the empty string when absent |
| Input.OptionalRoundTrip | src/screens/CustomersScreen.tsx:77-110 | filling a box from an optional value and saving it gives the value back, unless it was stored as an empty string |
| Input.OrZero | src/screens/NuevaVentaScreen.tsx:146 | `parseInt(..)` falling back to 0: 0 exactly when the box is empty, unreadable or holds 0, and otherwise the number in the box |
| Input.OrEmptyRoundTrip | src/screens/CustomersScreen.tsx:77-110 | saving a typed box and opening it again gives the typed text |
| Cart.Find | src/screens/NuevaVentaScreen.tsx:85 | the first line for the product (or with the id), or -1 exactly when there is none |
| Cart.Without | src/screens/NuevaVentaScreen.tsx:116-118 | removal drops every matching line |
| Cart.WithoutKeeps | src/screens/SalesScreen.tsx:108-110 | removal keeps every line that does not match |
| Cart.WithoutFrom | src/screens/SalesScreen.tsx:108-110 | every line that survives removal is a line of the cart |
| Cart.WithoutConcat | src/screens/SalesScreen.tsx:108-110 | removal from a cart made of two parts removes from each part and keeps the survivors in their order |
| Cart.WithoutKeepsCartValid | src/screens/SalesScreen.tsx:108-110 | removal of any lines keeps a well-formed cart well-formed |
| Cart.WithoutAbsent | src/screens/SalesScreen.tsx:108-110 | removing an id no line has leaves the cart as it was |
| Cart.SetQuantity | src/screens/NuevaVentaScreen.tsx:96-101 | rewriting a line sets its quantity and recomputes its total from its own unit price; other lines are unchanged |
| Cart.SetQuantityKeepsOthers | src/screens/NuevaVentaScreen.tsx:96-101 | rewriting the matching lines leaves the others as they were, in order |
| Cart.AddItem | src/screens/NuevaVentaScreen.tsx:84-114 | going over stock is refused and reports the stock; going below zero leaves the cart unchanged |
| Cart.AddItemHolds | src/screens/NuevaVentaScreen.tsx:84-114 | within stock, the product ends at the new total with every other line unchanged; a total of 0 removes its line |
| Cart.AddItemKeepsCartValid | src/screens/NuevaVentaScreen.tsx:84-114 | adding keeps the cart well-formed: one line per product, `0 < quantity <= stock`, `total = quantity * unitPrice` |
| Cart.AddItemDropsLine | src/screens/NuevaVentaScreen.tsx:93-95 | lowering an existing line to exactly 0 removes it |
| Cart.AddItemRaisesLine | src/screens/NuevaVentaScreen.tsx:96-101 | changing an existing line to a positive total rewrites that line alone |
| Cart.AddItemAppendsLine | src/screens/NuevaVentaScreen.tsx:103-112 | a product not in the cart gets a new last line snapshotting its name and price, with `total = quantity * price` |
| Cart.AddItemSimple | src/screens/SalesScreen.tsx:78-87 | going over stock is refused and reports the stock, and only then |
| Cart.AddItemSimpleHolds | src/screens/SalesScreen.tsx:78-106 | for a positive amount within stock, the product ends at the new total and every other line is unchanged |
| Cart.AddItemSimpleRaisesLine | src/screens/SalesScreen.tsx:89-94 | an existing line is rewritten to the new total and nothing else changes |
| Cart.AddItemSimpleAppendsLine | src/screens/SalesScreen.tsx:95-104 | a product not in the cart gets a new last line snapshotting its name and price |
| Cart.AddItemSimpleKeepsCartValid | src/screens/SalesScreen.tsx:78-106 | adding a positive amount keeps the cart well-formed |
| Cart.RemoveItemKeepsCartValid | src/screens/NuevaVentaScreen.tsx:116-118 | removal keeps the cart well-formed, and afterwards no line has that id |
| Cart.ChangeQuantity | src/screens/SalesScreen.tsx:112-126 | a typed quantity is applied to the line only when the line and its product exist and `0 <= q <= stock`; otherwise the cart is unchanged; other lines are unchanged either way (NuevaVentaScreen.tsx:120-134 is the same code) |
| Cart.ChangeQuantityLeavesEmptyLine | src/screens/SalesScreen.tsx:112-126 | a well-formed one-line cart whose line is typed down to 0 is no longer well-formed |
| Cart.ChangeQuantityDroppingZero | src/screens/SalesScreen.tsx:112-126 | the quantity change with 0 removing the line, as the other cart operations do; nonzero quantities behave as written |
| Cart.ChangeQuantityDroppingZeroKeepsCartValid | src/screens/SalesScreen.tsx:112-126 | the corrected quantity change keeps the cart well-formed |
| Cart.ConfirmQuantity | src/screens/NuevaVentaScreen.tsx:143-177 | with no dialog open, or the product gone, the cart is unchanged; above stock is refused and reports the stock; a negative number changes nothing; within `0..stock` the product ends at that quantity (0 removing its line) with every other line unchanged |
| Cart.PutQuantity | src/screens/NuevaVentaScreen.tsx:150-170 | the accepted branch of `confirmQuantityInput`: afterwards the product holds exactly the given quantity, 0 meaning no line for it, with every other line unchanged |
| Cart.ConfirmTyped | src/screens/NuevaVentaScreen.tsx:146 | an empty or unreadable box counts as 0, so confirming it takes the product out of the cart |
| Cart.ConfirmQuantityKeepsCartValid | src/screens/NuevaVentaScreen.tsx:143-177 | confirming a typed quantity keeps the cart well-formed |
| Pricing.DiscountAmount | src/screens/NuevaVentaScreen.tsx:181-189 | no discount for value 0; a percentage discount is `subtotal * value / 100`; a fixed one is the smaller of the value and the subtotal |
| Pricing.Total | src/screens/NuevaVentaScreen.tsx:190 | the total is the subtotal minus the discount, floored at 0, and never above a non-negative subtotal when the discount is not negative |
| Pricing.PercentageWithinSubtotal | src/screens/NuevaVentaScreen.tsx:184-185 | a percentage from 0 to 100 takes off between nothing and the whole subtotal |
| Pricing.FixedTotal | src/screens/NuevaVentaScreen.tsx:186-190 | with a fixed discount the total is max(0, subtotal - value): the cap at the subtotal changes nothing |
| Pricing.DiscountExtremes | src/screens/NuevaVentaScreen.tsx:181-190 | 100% off makes the sale free; a zero discount leaves the subtotal |
| Pricing.PercentageMonotone | src/screens/NuevaVentaScreen.tsx:184-190 | a larger percentage never gives a larger total |
| SaleWorkflow.FirstShortLine | src/screens/NuevaVentaScreen.tsx:200-207 | the first line the stored stock cannot serve, or -1 exactly when every line can be served |
| SaleWorkflow.Validate | src/screens/NuevaVentaScreen.tsx:194-207 | a save passes exactly when there is a customer, a line, and stored stock for every line; a missing customer or empty cart is reported first; otherwise the first short line's product and its stored stock (0 if the product is gone) are reported |
| SaleWorkflow.RecordMovements | src/screens/NuevaVentaScreen.tsx:222-231 | one movement per line, in line order, each OUT for the line's product and quantity with reason 'Venta'; only the movements table grows |
| SaleWorkflow.SaveSale | src/screens/NuevaVentaScreen.tsx:193-241 | a save is rejected exactly when validation fails, and then stores nothing; a saved sale carries the customer, the cart, the total and the clock's month, and is appended with its movements; no product appears or disappears |
| SaleWorkflow.SaveRecordsOneMovementPerLine | src/screens/SalesScreen.tsx:164-173 | a saved sale records exactly one OUT 'Venta' movement per line, with the line's product and quantity |
| SaleWorkflow.SaveStampsMonth | src/screens/NuevaVentaScreen.tsx:209-219 | a saved sale's month is the zero-padded "YYYY-MM" of the clock, from which year and month read back |
| SaleWorkflow.SaveDecrementsExactly | src/store/slices/salesSlice.ts:45-58 | after validation, a cart with one line per product leaves each sold product at exactly stock minus quantity (the clamp never applies), and every other product unchanged |
| SaleWorkflow.SavedSaleReported | src/screens/ReportsScreen.tsx:35-54 | a saved sale is listed among the sales of the month the report opens on, on the same clock |
| SaleWorkflow.SaveDiscountedSale | src/screens/NuevaVentaScreen.tsx:208 | the new-sale screen stores the discounted total, never negative |
| SaleWorkflow.SavePlainSale | src/screens/SalesScreen.tsx:145 | the sales screen stores the plain sum of the line totals |
| SaleWorkflow.SaleScenario | src/screens/SalesScreen.tsx:128-184 | selling 4 of 10 units leaves 6 and one movement; asking for 11 is refused, reporting the 10 in stock and storing nothing |
| StockAdjustment.PlanAdjustment | src/screens/StockScreen.tsx:73-110 | the three refusals in order (missing field; quantity not a positive number; OUT above stock), each exactly when its condition holds; an accepted form records the product's id and name with the chosen type, quantity and reason, and changes only the product's stock, by +q for IN and -q for OUT, never below 0 |
| StockAdjustment.StoreProduct | src/database/database.ts:106-112 | when the row exists, the UPDATE writes every field of the copy but `createdAt`, which keeps its stored value; a missing row and every other product are unchanged |
| Store.GetProductById | src/database/database.ts:206-210 | the stored row for the id, and nothing exactly when no row has that id |
| StockAdjustment.StoreThenGet | src/database/database.ts:106-112 | reading the product back (`getProductById`) after the UPDATE gives the copy with the stored creation time, or nothing when the row was gone |
| StockAdjustment.Commit | src/screens/StockScreen.tsx:104-110 | the movement is appended to the ledger and the product stored with a fresh `updatedAt` and its stored `createdAt`; other products are unchanged |
| StockAdjustment.SaveMovement | src/screens/StockScreen.tsx:73-113 | a refused form stores nothing and says why; a recorded one appends exactly its movement |
| StockAdjustment.MovementExplainsStock | src/screens/StockScreen.tsx:90-110 | the stored stock is the product's stock moved by the recorded movement's signed quantity, never negative, and the stored row is the screen's copy with that stock, the new `updatedAt` and the stored `createdAt` |
| StockAdjustment.StoredStockFromScreenCopy | src/screens/StockScreen.tsx:107-110 | the new stock is computed from the screen's copy of the product, so whatever the database holds, the stored row ends the same apart from the `createdAt` the UPDATE keeps |
| Forms.SaveProduct | src/screens/ProductsScreen.tsx:89-121 | the four refusals in order (a required box empty; price not above 0; stock below 0; minimum below 0), each exactly when its condition holds; otherwise a new product when not editing, or the edited product with the form's fields and its own id and timestamps |
| Forms.EditProductForm | src/screens/ProductsScreen.tsx:76-87 | the dialog is filled with the product's fields, a missing description shown empty |
| Forms.EditProductRoundTrip | src/screens/ProductsScreen.tsx:76-121 | opening a valid product and saving it untouched gives the product back, except that a missing description comes back empty |
| Forms.CreatedProductWellFormed | src/screens/ProductsScreen.tsx:89-121 | a product created from an accepted form has a name and category, a positive price, and stock and minimum that are not negative |
| Forms.CustomerFormDraft | src/screens/CustomersScreen.tsx:105-111 | an empty phone, e-mail or address box is stored as absent, any other text as typed |
| Forms.SaveCustomer | src/screens/CustomersScreen.tsx:99-120 | refused exactly when name or CUIL is empty; otherwise a new customer, or the edited one with the form's fields and its own id and timestamps |
| Forms.EditCustomerForm | src/screens/CustomersScreen.tsx:72-82 | the dialog is filled with the customer's fields, missing ones shown empty |
| Forms.EditCustomerRoundTrip | src/screens/CustomersScreen.tsx:72-120 | opening a customer and saving it untouched gives the customer back |
| Forms.SavedCustomerHasNoEmptyFields | src/screens/CustomersScreen.tsx:105-114 | an edited customer never stores an empty phone, e-mail or address |
| Catalog.SearchProducts | src/screens/ProductsScreen.tsx:58-61 | the search keeps exactly the products whose name or category contains the query, ignoring case |
| Catalog.EmptyProductSearch | src/screens/StockScreen.tsx:58-61 | an empty query keeps every product, in order |
| Catalog.ProductSearchConcat | src/screens/StockScreen.tsx:58-61 | searching a concatenation searches each part, so results keep list order |
| Catalog.SearchCustomers | src/screens/CustomersScreen.tsx:55-58 | the search keeps exactly the customers whose name contains the query ignoring case, or whose CUIL contains it as typed |
| Catalog.EmptyCustomerSearch | src/screens/CustomersScreen.tsx:55-58 | an empty query keeps every customer |
| Catalog.StockStatus | src/screens/StockScreen.tsx:116 | 'out' exactly at stock 0, 'low' exactly for other stock up to the minimum, 'normal' exactly above it |
| Catalog.StatusAgreesWithLowBadge | src/screens/ProductsScreen.tsx:124-125 | with a minimum that is not negative, the stock screen warns exactly when the product screen shows 'low' |
| Catalog.CategoriesOf | src/components/ProductFilters.tsx:28 | the products' categories, one per product, in order |
| Catalog.Categories | src/components/ProductFilters.tsx:28 | 'Todas' first, then every product's category exactly once and nothing else, in the order each category first appears in the product list |
| Catalog.CategoriesListedOnce | src/components/ProductFilters.tsx:28 | when no category is itself named 'Todas', no chip appears twice |
| Catalog.LowStockProducts | src/components/ProductFilters.tsx:31 | exactly the products with stock up to their minimum |
| Catalog.OutOfStockProducts | src/components/ProductFilters.tsx:32 | exactly the products with stock 0 |
| Catalog.StockFilterCounts | src/components/ProductFilters.tsx:34-38 | 'all' counts every product, 'low' is the length of the low-stock list and 'out' that of the out-of-stock list; 'low' and 'out' never exceed 'all', and 'out' never exceeds 'low' when minimums are not negative |
| Reports.DefaultMonth | src/screens/ReportsScreen.tsx:35-38 | the report opens on the current date's month key, from which year and month read back |
| Reports.MonthsOf | src/screens/ReportsScreen.tsx:41 | the months of the sales, one per sale, in order |
| Reports.InsertDescending | src/screens/ReportsScreen.tsx:41 | inserting a new value into a newest-first list keeps it newest first and adds exactly that value |
| Reports.SortDescending | src/screens/ReportsScreen.tsx:41 | `sort().reverse()` on distinct values gives a strictly newest-first permutation |
| Reports.AvailableMonths | src/screens/ReportsScreen.tsx:41 | every month that has a sale, each once and nothing else, newest first |
| Reports.DescendingNoDuplicates | src/screens/ReportsScreen.tsx:41 | a strictly newest-first list has no month twice |
| Reports.MonthlySales | src/screens/ReportsScreen.tsx:54 | exactly the sales of the selected month |
| Reports.NewSaleInItsMonth | src/screens/ReportsScreen.tsx:54 | a new sale in front of the list shows at the top of its month's sales, and the rest of the month is unchanged |
| Reports.TotalAmount | src/screens/ReportsScreen.tsx:55 | the month's amount, the sum of the sales' totals, is never negative when no sale total is |
| Reports.TotalAmountPrepend | src/screens/ReportsScreen.tsx:55 | a sale in front adds its total to the month's amount |
| Reports.UniqueCustomers | src/screens/ReportsScreen.tsx:57 | the number of distinct buyers is at most the number of sales, and at least 1 when there is a sale |
| Reports.GroupIndex | src/screens/ReportsScreen.tsx:62 | `acc.find` on product id: the group for the product, or -1 exactly when there is none |
| Reports.MergeLineGroups | src/screens/ReportsScreen.tsx:60-68 | one step of the product `reduce` (Reports.MergeLine) opens a group exactly when the product had none, keeps every group in its place and every other product's group as it was, and leaves the product's group with the line's units and money added |
| Reports.GroupByProduct | src/screens/ReportsScreen.tsx:59-69 | one group per product sold and nothing else, each holding all the units and money of its lines |
| Reports.GroupingKeepsAmount | src/screens/ReportsScreen.tsx:59-69 | grouping loses no money: the groups' totals add up to the lines' totals |
| Reports.GroupByCustomer | src/screens/ReportsScreen.tsx:74-89 | one row per buyer and nothing else, each with the customer's number of sales (at least 1) and money spent; the counts add up to the number of sales |
| Reports.MergeSaleRows | src/screens/ReportsScreen.tsx:75-89 | one step of the customer `reduce` (Reports.MergeSale) opens a row exactly when the customer had none, keeps every row in its place and every other customer's row as it was, and leaves the customer's row with one more sale and the sale's total added |
| Reports.CustomerRowsMatchHeadline | src/screens/ReportsScreen.tsx:57-89 | there are as many customer rows as `uniqueCustomers`, and before the cut their counts add up to `totalSales` |
| Reports.InsertByKey | src/screens/ReportsScreen.tsx:70 | one insertion step adds exactly the element |
| Reports.SortByKey | src/screens/ReportsScreen.tsx:70 | the sort is a permutation |
| Reports.SortOrders | src/screens/ReportsScreen.tsx:70 | the sort puts the biggest key first |
| Reports.SortStable | src/screens/ReportsScreen.tsx:70 | the sort is stable: elements with equal keys keep their order |
| Reports.Top | src/screens/ReportsScreen.tsx:71 | `slice(0, 5)` keeps the first five, or all when there are fewer |
| Reports.TopBy | src/screens/ReportsScreen.tsx:70-71 | sorting and cutting keeps min(n, 5) elements of the list, biggest first, and nothing left out beats anything kept |
| Reports.TopByKeepsAll | src/screens/ReportsScreen.tsx:70-71 | when fewer than five are kept, every element is kept |
| Reports.TopByKeepsDistinct | src/screens/ReportsScreen.tsx:70-71 | the cut of a list with distinct ids has distinct ids |
| Reports.TopProducts | src/screens/ReportsScreen.tsx:59-72 | at most five products, most units first, each listed once |
| Reports.TopProductsTallied | src/screens/ReportsScreen.tsx:59-72 | each listed product was sold that month and comes with all its units and money |
| Reports.TopProductsLeaveOut | src/screens/ReportsScreen.tsx:59-72 | a product sold that month but not listed means five are listed, each with at least as many units |
| Reports.TopCustomers | src/screens/ReportsScreen.tsx:74-92 | at most five customers, biggest spender first, each listed once |
| Reports.TopCustomersCounted | src/screens/ReportsScreen.tsx:74-92 | each listed customer comes with their number of sales that month (at least 1) and the money they spent |
| Reports.TopCustomersLeaveOut | src/screens/ReportsScreen.tsx:74-92 | a buyer not listed means five are listed, each having spent at least as much |
| Reports.MonthlyReport | src/screens/ReportsScreen.tsx:54-94 | the screen's figures: the month's sales and their count and amount; the distinct buyers (at most the count); the top-product and top-customer lists of those sales (at most five each); and exactly the products at or below their minimum |
| Reports.MonthlyReportFigures | src/screens/ReportsScreen.tsx:54-92 | each listed product carries all of its units and money for the month, each listed customer their number of sales (at least 1) and money spent, and the buyer count equals the number of per-customer rows |

## Left out

- The SQLite layer is replaced by the `Store.Db` value. SQL text, the `description || null` column mapping and the silent no-op when no database handle exists are not modelled.
- Fetch ordering (`ORDER BY date DESC`, by name for products and customers) is not modelled: a fetch result is any list.
- Thunk rejections caused by database exceptions, and a save failing halfway (sale stored, some movements not), are not modelled. Each workflow is one sequential step that either refuses before storing anything or completes.
- Redux dispatch, `await` ordering, the `isSaving` flag, the refetches after a save, snackbars, alerts and navigation are not modelled.
- `Date.now()` ids and `new Date()` timestamps are parameters. One clock reading (`SaleWorkflow.Clock`) stands for the separate readings the source takes for the sale date, its month and the stamps.
- `parseInt`/`parseFloat` are not modelled character by character; a numeric box is already `Blank`, `Invalid` or `Parsed`. A box such as "12abc", which `parseInt` reads as 12, is `Parsed(12)`.
- Money is exact `real`; JavaScript floating-point rounding of line totals and discounts is not modelled.
- Cart.ConfirmQuantity: when the dialog's product is no longer in the loaded list and the typed quantity is not accepted, the source reads `product.stock` of `undefined` and throws; the model leaves the cart unchanged instead.
- Text.StrLess compares Dafny characters, not UTF-16 code units; the two orders agree on the ASCII digits and dash that make up a month key.
- Text.Lower lowers ASCII letters only; `toLowerCase` also lowers accented letters, so a search for "Á" matching "á" is not captured.
- The stock-movement history screen, the dashboard and every rendering and styling component are not modelled, and neither are the seed data, the discard-changes guard or the display-only IVA line.
- The screens act on a copy of the product list taken at the last fetch. Lost updates between two devices or two screens are not modelled beyond `StockAdjustment.StoredStockFromScreenCopy`.

## Findings

| source | as written | input that shows it | evidently intended | confidence | as-written member | corrected member |
|---|---|---|---|---|---|---|
| src/screens/SalesScreen.tsx:112-126 | `handleQuantityChange` accepts a quantity of 0 and keeps the line with quantity 0 and total 0; saving then records a zero-unit sale line and a zero-unit OUT movement. The 0 arrives from the line's quantity box (SalesScreen.tsx:313), typed or cleared, since a cleared box parses to `NaN`, which falls back to 0. The identical copy at NuevaVentaScreen.tsx:120-134 cannot receive 0: it is called only from the -/+ buttons, and the - button is disabled at quantity 1 or less (NuevaVentaScreen.tsx:465-466) | on the sales screen, a cart with one line of 1 unit of a product with stock 5, and "0" typed into that line's quantity box | 0 removes the line, as `handleAddItem` and `confirmQuantityInput` do, so every line keeps `0 < quantity` | medium, not executed | Cart.ChangeQuantity, Cart.ChangeQuantityLeavesEmptyLine | Cart.ChangeQuantityDroppingZero, Cart.ChangeQuantityDroppingZeroKeepsCartValid |
