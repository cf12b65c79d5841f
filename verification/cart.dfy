/** The shopping cart of the two sale screens: adding, incrementing,
    decrementing, setting and removing sale lines against the stock of the
    loaded product list (the "catalog").

    A well-formed cart (`ValidCart`) holds at most one line per product
    and per line id, and every line has a positive quantity within its
    product's stock and a total equal to quantity times unit price. */
module Cart {
  import opened Domain
  import opened Input

  datatype CartResult = Applied(items: seq<SaleItem>) | InsufficientStock(available: int)

  /** The two ways the screens pick lines: by product or by line id. */
  datatype LineKey = ForProduct(pid: string) | WithId(id: string)

  predicate Matches(l: SaleItem, k: LineKey)
  {
    match k
    case ForProduct(pid) => l.productId == pid
    case WithId(id) => l.id == id
  }

  /** `items.findIndex(..)`: the first matching line, or -1. */
  function Find(items: seq<SaleItem>, k: LineKey): (i: int)
    ensures -1 <= i < |items|
    ensures i == -1 <==> forall j :: 0 <= j < |items| ==> !Matches(items[j], k)
    ensures 0 <= i ==> Matches(items[i], k) && forall j :: 0 <= j < i ==> !Matches(items[j], k)
  {
    if |items| == 0 then -1
    else if Matches(items[0], k) then 0
    else
      var i := Find(items[1..], k);
      if i == -1 then -1 else i + 1
  }

  /** Two carts whose lines match a key at the same places find it at the
      same place. */
  lemma FindByPattern(a: seq<SaleItem>, b: seq<SaleItem>, k: LineKey)
    requires |a| == |b|
    requires forall j :: 0 <= j < |a| ==> Matches(a[j], k) == Matches(b[j], k)
    ensures Find(a, k) == Find(b, k)
  {
    var i, i' := Find(a, k), Find(b, k);
    if i != -1 && i' != -1 {
      assert !(i < i') && !(i' < i);
    }
  }

  /** `items.filter(l => !matches(l))`: every matching line dropped, the
      others kept in order. */
  function Without(items: seq<SaleItem>, k: LineKey): (r: seq<SaleItem>)
    ensures |r| <= |items|
    ensures forall j :: 0 <= j < |r| ==> !Matches(r[j], k)
  {
    if |items| == 0 then []
    else if Matches(items[0], k) then Without(items[1..], k)
    else [items[0]] + Without(items[1..], k)
  }

  /** Every surviving line is a line of the cart. */
  lemma {:induction false} WithoutFrom(items: seq<SaleItem>, k: LineKey)
    ensures forall j :: 0 <= j < |Without(items, k)| ==> Without(items, k)[j] in items
  {
    if |items| > 0 {
      WithoutFrom(items[1..], k);
    }
  }

  /** Every line that does not match survives. */
  lemma {:induction false} WithoutKeeps(items: seq<SaleItem>, k: LineKey, m: nat)
    requires m < |items| && !Matches(items[m], k)
    ensures items[m] in Without(items, k)
  {
    if m > 0 {
      WithoutKeeps(items[1..], k, m - 1);
    }
  }

  lemma {:induction false} WithoutConcat(xs: seq<SaleItem>, ys: seq<SaleItem>, k: LineKey)
    ensures Without(xs + ys, k) == Without(xs, k) + Without(ys, k)
  {
    if |xs| > 0 {
      assert (xs + ys)[1..] == xs[1..] + ys;
      WithoutConcat(xs[1..], ys, k);
    } else {
      assert xs + ys == ys;
    }
  }

  /** A cart with no matching line is left exactly as it was. */
  lemma {:induction false} WithoutAbsent(items: seq<SaleItem>, k: LineKey)
    requires Find(items, k) == -1
    ensures Without(items, k) == items
  {
    if |items| > 0 {
      WithoutAbsent(items[1..], k);
    }
  }

  /** `items.map(l => matches(l) ? {...l, quantity: q, total: q * l.unitPrice} : l)`. */
  function SetQuantity(items: seq<SaleItem>, k: LineKey, q: int): (r: seq<SaleItem>)
    ensures |r| == |items|
    ensures forall j :: 0 <= j < |items| ==> r[j] == if Matches(items[j], k) then Retotal(items[j], q) else items[j]
  {
    if |items| == 0 then []
    else [if Matches(items[0], k) then Retotal(items[0], q) else items[0]] + SetQuantity(items[1..], k, q)
  }

  /** Rewriting the matching lines leaves every other line as it was, in
      order. */
  lemma {:induction false} SetQuantityKeepsOthers(items: seq<SaleItem>, k: LineKey, q: int)
    ensures Without(SetQuantity(items, k, q), k) == Without(items, k)
  {
    if |items| > 0 {
      SetQuantityKeepsOthers(items[1..], k, q);
      assert SetQuantity(items, k, q)[1..] == SetQuantity(items[1..], k, q);
    }
  }

  /** A line with a new quantity and its total recomputed from its own
      unit price. */
  function Retotal(l: SaleItem, q: int): SaleItem
  {
    l.(quantity := q, total := q as real * l.unitPrice)
  }

  /** A fresh line snapshotting the product's name and price. */
  function NewLine(product: Product, quantity: int, freshId: string): SaleItem
  {
    SaleItem(freshId, product.id, product.name, quantity, product.price, quantity as real * product.price)
  }

  /** The quantity already in the cart for product `pid` (0 without a line). */
  function CurrentQuantity(items: seq<SaleItem>, pid: string): int
  {
    var i := Find(items, ForProduct(pid));
    if i == -1 then 0 else items[i].quantity
  }

  // ---------------------------------------------------------------------
  // Well-formed carts

  predicate UniqueProducts(items: seq<SaleItem>)
  {
    forall i, j :: 0 <= i < j < |items| ==> items[i].productId != items[j].productId
  }

  predicate UniqueIds(items: seq<SaleItem>)
  {
    forall i, j :: 0 <= i < j < |items| ==> items[i].id != items[j].id
  }

  predicate LineOk(l: SaleItem, catalog: seq<Product>)
  {
    && 0 < l.quantity
    && l.total == l.quantity as real * l.unitPrice
    && FindProduct(catalog, l.productId).Some?
    && l.quantity <= FindProduct(catalog, l.productId).value.stock
  }

  predicate ValidCart(items: seq<SaleItem>, catalog: seq<Product>)
  {
    && UniqueProducts(items)
    && UniqueIds(items)
    && forall k :: 0 <= k < |items| ==> LineOk(items[k], catalog)
  }

  /** Removal keeps a well-formed cart well-formed: the survivors are
      lines of the cart, in their order. */
  lemma {:induction false} WithoutKeepsCartValid(items: seq<SaleItem>, k: LineKey, catalog: seq<Product>)
    requires ValidCart(items, catalog)
    ensures ValidCart(Without(items, k), catalog)
  {
    if |items| > 0 {
      var rest := items[1..];
      assert forall j :: 0 <= j < |rest| ==> rest[j] == items[j + 1];
      WithoutKeepsCartValid(rest, k, catalog);
      WithoutFrom(rest, k);
      var w := Without(rest, k);
      if !Matches(items[0], k) {
        forall j | 0 <= j < |w| ensures w[j].productId != items[0].productId && w[j].id != items[0].id {
          var m :| 0 <= m < |rest| && rest[m] == w[j];
          assert items[m + 1] == w[j];
        }
        assert LineOk(items[0], catalog);
        ConsKeepsCartValid(items[0], w, catalog);
      }
    }
  }

  /** A well-formed line in front of a well-formed cart that shares
      neither its product nor its id gives a well-formed cart. */
  lemma ConsKeepsCartValid(line: SaleItem, items: seq<SaleItem>, catalog: seq<Product>)
    requires ValidCart(items, catalog) && LineOk(line, catalog)
    requires forall j :: 0 <= j < |items| ==> items[j].productId != line.productId && items[j].id != line.id
    ensures ValidCart([line] + items, catalog)
  {
    var r := [line] + items;
    assert forall j :: 0 < j < |r| ==> r[j] == items[j - 1];
  }

  lemma SetQuantityKeepsCartValid(items: seq<SaleItem>, k: LineKey, q: int, catalog: seq<Product>)
    requires ValidCart(items, catalog)
    requires forall j :: 0 <= j < |items| && Matches(items[j], k) ==> LineOk(Retotal(items[j], q), catalog)
    ensures ValidCart(SetQuantity(items, k, q), catalog)
  {
    var r := SetQuantity(items, k, q);
    assert forall j :: 0 <= j < |r| ==> r[j].productId == items[j].productId && r[j].id == items[j].id;
  }

  lemma AppendKeepsCartValid(items: seq<SaleItem>, line: SaleItem, catalog: seq<Product>)
    requires ValidCart(items, catalog) && LineOk(line, catalog)
    requires Find(items, ForProduct(line.productId)) == -1
    requires Find(items, WithId(line.id)) == -1
    ensures ValidCart(items + [line], catalog)
  {
  }

  // ---------------------------------------------------------------------
  // Putting a product at a given quantity

  /** `after` holds product `pid` at exactly `n` units (with no line at
      all for 0) and every other line of `before`, unchanged and in
      order. */
  predicate HoldsAt(before: seq<SaleItem>, after: seq<SaleItem>, pid: string, n: int)
  {
    && CurrentQuantity(after, pid) == n
    && (n == 0 ==> Find(after, ForProduct(pid)) == -1)
    && Without(after, ForProduct(pid)) == Without(before, ForProduct(pid))
  }

  /** Filtering the product out puts it at 0. */
  lemma DropHolds(items: seq<SaleItem>, pid: string)
    ensures HoldsAt(items, Without(items, ForProduct(pid)), pid, 0)
  {
    WithoutAbsent(Without(items, ForProduct(pid)), ForProduct(pid));
  }

  /** Rewriting the product's existing line puts it at the new quantity. */
  lemma SetHolds(items: seq<SaleItem>, pid: string, n: int)
    requires Find(items, ForProduct(pid)) != -1 && n != 0
    ensures HoldsAt(items, SetQuantity(items, ForProduct(pid), n), pid, n)
  {
    FindByPattern(items, SetQuantity(items, ForProduct(pid), n), ForProduct(pid));
    SetQuantityKeepsOthers(items, ForProduct(pid), n);
  }

  /** Appending a line for a product the cart lacks puts it at the line's
      quantity. */
  lemma AppendHolds(items: seq<SaleItem>, p: Product, n: int, freshId: string)
    requires Find(items, ForProduct(p.id)) == -1 && n != 0
    ensures HoldsAt(items, items + [NewLine(p, n, freshId)], p.id, n)
  {
    var line := NewLine(p, n, freshId);
    WithoutConcat(items, [line], ForProduct(p.id));
    FindAfterAppend(items, line, ForProduct(p.id));
  }

  lemma {:induction false} FindAfterAppend(items: seq<SaleItem>, line: SaleItem, k: LineKey)
    requires Find(items, k) == -1 && Matches(line, k)
    ensures Find(items + [line], k) == |items|
  {
    if |items| > 0 {
      assert (items + [line])[1..] == items[1..] + [line];
      FindAfterAppend(items[1..], line, k);
    }
  }

  /** Rewriting the lines of a catalog product to a quantity within its
      stock keeps a well-formed cart well-formed. */
  lemma SetProductKeepsCartValid(items: seq<SaleItem>, catalog: seq<Product>, p: Product, n: int)
    requires ValidCart(items, catalog)
    requires FindProduct(catalog, p.id) == Some(p) && 0 < n <= p.stock
    ensures ValidCart(SetQuantity(items, ForProduct(p.id), n), catalog)
  {
    SetQuantityKeepsCartValid(items, ForProduct(p.id), n, catalog);
  }

  /** Appending a line for a catalog product the cart lacks, at a quantity
      within its stock and under a fresh line id, keeps a well-formed cart
      well-formed. */
  lemma AppendProductKeepsCartValid(items: seq<SaleItem>, catalog: seq<Product>, p: Product, n: int,
                                    freshId: string)
    requires ValidCart(items, catalog)
    requires FindProduct(catalog, p.id) == Some(p) && 0 < n <= p.stock
    requires Find(items, ForProduct(p.id)) == -1 && Find(items, WithId(freshId)) == -1
    ensures ValidCart(items + [NewLine(p, n, freshId)], catalog)
  {
    AppendKeepsCartValid(items, NewLine(p, n, freshId), catalog);
  }

  /** The cart with product `p` at exactly `n` units, as the quantity
      dialog writes it: 0 drops the product's line, an existing line is
      set to `n`, and otherwise a new line is appended. */
  function PutQuantity(items: seq<SaleItem>, p: Product, n: nat, freshId: string): (r: seq<SaleItem>)
    ensures HoldsAt(items, r, p.id, n)
  {
    var key := ForProduct(p.id);
    if n == 0 then
      DropHolds(items, p.id);
      Without(items, key)
    else if Find(items, key) != -1 then
      SetHolds(items, p.id, n);
      SetQuantity(items, key, n)
    else
      AppendHolds(items, p, n, freshId);
      items + [NewLine(p, n, freshId)]
  }

  /** Putting a catalog product at a quantity within its stock keeps a
      well-formed cart well-formed, given a fresh line id. */
  lemma PutQuantityKeepsCartValid(items: seq<SaleItem>, catalog: seq<Product>, p: Product, n: nat,
                                  freshId: string)
    requires ValidCart(items, catalog)
    requires FindProduct(catalog, p.id) == Some(p) && n <= p.stock
    requires Find(items, WithId(freshId)) == -1
    ensures ValidCart(PutQuantity(items, p, n, freshId), catalog)
  {
    if n == 0 {
      WithoutKeepsCartValid(items, ForProduct(p.id), catalog);
    } else if Find(items, ForProduct(p.id)) != -1 {
      SetProductKeepsCartValid(items, catalog, p, n);
    } else {
      AppendProductKeepsCartValid(items, catalog, p, n, freshId);
    }
  }

  // ---------------------------------------------------------------------
  // NuevaVentaScreen.handleAddItem

  /** Adds `quantity` (the minus button passes -1) to the product's line.
      Going over stock is refused; going below zero is ignored; otherwise
      the product ends at the new total, a total of 0 dropping its line,
      and every other line is left alone. */
  function AddItem(items: seq<SaleItem>, product: Product, quantity: int, freshId: string): (r: CartResult)
    ensures var n := CurrentQuantity(items, product.id) + quantity;
            && (r.InsufficientStock? <==> n > product.stock)
            && (r.InsufficientStock? ==> r.available == product.stock)
            && (n < 0 && n <= product.stock ==> r == Applied(items))
  {
    var key := ForProduct(product.id);
    var n := CurrentQuantity(items, product.id) + quantity;
    if n > product.stock then InsufficientStock(product.stock)
    else if n < 0 then Applied(items)
    else if Find(items, key) != -1 then
      if n == 0 then Applied(Without(items, key))
      else Applied(SetQuantity(items, key, n))
    else if quantity > 0 then Applied(items + [NewLine(product, quantity, freshId)])
    else Applied(items)
  }

  /** Within stock, `handleAddItem` leaves the product at the new total (a
      total of 0 dropping its line) and every other line alone. */
  lemma AddItemHolds(items: seq<SaleItem>, product: Product, quantity: int, freshId: string)
    requires 0 <= CurrentQuantity(items, product.id) + quantity <= product.stock
    ensures AddItem(items, product, quantity, freshId).Applied?
    ensures HoldsAt(items, AddItem(items, product, quantity, freshId).items, product.id,
                    CurrentQuantity(items, product.id) + quantity)
  {
    var n := CurrentQuantity(items, product.id) + quantity;
    if Find(items, ForProduct(product.id)) != -1 {
      if n == 0 {
        AddItemDropsLine(items, [], product, quantity, freshId);
      } else {
        AddItemRaisesLine(items, [], product, quantity, freshId);
      }
    } else if quantity > 0 {
      AddItemAppendsLine(items, [], product, quantity, freshId);
    }
  }

  /** `handleAddItem` keeps a well-formed cart well-formed, given that the
      product passed in is the catalog's entry and the new line id is
      fresh. */
  lemma AddItemKeepsCartValid(items: seq<SaleItem>, catalog: seq<Product>, product: Product,
                              quantity: int, freshId: string)
    requires ValidCart(items, catalog)
    requires FindProduct(catalog, product.id) == Some(product)
    requires Find(items, WithId(freshId)) == -1
    ensures AddItem(items, product, quantity, freshId).Applied? ==>
              ValidCart(AddItem(items, product, quantity, freshId).items, catalog)
  {
    var n := CurrentQuantity(items, product.id) + quantity;
    if 0 <= n <= product.stock {
      if Find(items, ForProduct(product.id)) != -1 {
        if n == 0 {
          AddItemDropsLine(items, catalog, product, quantity, freshId);
        } else {
          AddItemRaisesLine(items, catalog, product, quantity, freshId);
        }
      } else if quantity > 0 {
        AddItemAppendsLine(items, catalog, product, quantity, freshId);
      }
    }
  }

  // The three branches of `handleAddItem` that change the cart.

  lemma AddItemDropsLine(items: seq<SaleItem>, catalog: seq<Product>, product: Product, quantity: int,
                         freshId: string)
    requires Find(items, ForProduct(product.id)) != -1
    requires 0 == CurrentQuantity(items, product.id) + quantity <= product.stock
    ensures AddItem(items, product, quantity, freshId) == Applied(Without(items, ForProduct(product.id)))
    ensures HoldsAt(items, AddItem(items, product, quantity, freshId).items, product.id, 0)
    ensures ValidCart(items, catalog) ==> ValidCart(AddItem(items, product, quantity, freshId).items, catalog)
  {
    DropHolds(items, product.id);
    if ValidCart(items, catalog) {
      WithoutKeepsCartValid(items, ForProduct(product.id), catalog);
    }
  }

  lemma AddItemRaisesLine(items: seq<SaleItem>, catalog: seq<Product>, product: Product, quantity: int,
                          freshId: string)
    requires Find(items, ForProduct(product.id)) != -1
    requires 0 < CurrentQuantity(items, product.id) + quantity <= product.stock
    ensures var n := CurrentQuantity(items, product.id) + quantity;
            && AddItem(items, product, quantity, freshId) == Applied(SetQuantity(items, ForProduct(product.id), n))
            && HoldsAt(items, AddItem(items, product, quantity, freshId).items, product.id, n)
    ensures ValidCart(items, catalog) && FindProduct(catalog, product.id) == Some(product) ==>
              ValidCart(AddItem(items, product, quantity, freshId).items, catalog)
  {
    var n := CurrentQuantity(items, product.id) + quantity;
    SetHolds(items, product.id, n);
    if ValidCart(items, catalog) && FindProduct(catalog, product.id) == Some(product) {
      SetProductKeepsCartValid(items, catalog, product, n);
    }
  }

  lemma AddItemAppendsLine(items: seq<SaleItem>, catalog: seq<Product>, product: Product, quantity: int,
                           freshId: string)
    requires Find(items, ForProduct(product.id)) == -1
    requires 0 < quantity <= product.stock
    ensures AddItem(items, product, quantity, freshId) == Applied(items + [NewLine(product, quantity, freshId)])
    ensures HoldsAt(items, AddItem(items, product, quantity, freshId).items, product.id, quantity)
    ensures ValidCart(items, catalog) && FindProduct(catalog, product.id) == Some(product)
            && Find(items, WithId(freshId)) == -1 ==>
              ValidCart(AddItem(items, product, quantity, freshId).items, catalog)
  {
    AppendHolds(items, product, quantity, freshId);
    if ValidCart(items, catalog) && FindProduct(catalog, product.id) == Some(product)
       && Find(items, WithId(freshId)) == -1 {
      AppendProductKeepsCartValid(items, catalog, product, quantity, freshId);
    }
  }

  // ---------------------------------------------------------------------
  // SalesScreen.handleAddItem

  /** The older screen's variant: over-stock is refused, an existing line
      is raised to the new total, and otherwise a line is appended.  It
      has no zero or negative handling; for the positive amounts the
      screen passes, the product ends at the new total and every other
      line is left alone. */
  function AddItemSimple(items: seq<SaleItem>, product: Product, quantity: int, freshId: string): (r: CartResult)
    ensures var n := CurrentQuantity(items, product.id) + quantity;
            && (r.InsufficientStock? <==> n > product.stock)
            && (r.InsufficientStock? ==> r.available == product.stock)
  {
    var key := ForProduct(product.id);
    var n := CurrentQuantity(items, product.id) + quantity;
    if n > product.stock then InsufficientStock(product.stock)
    else if Find(items, key) != -1 then Applied(SetQuantity(items, key, n))
    else Applied(items + [NewLine(product, quantity, freshId)])
  }

  /** For the positive amounts the older screen passes, within stock the
      product ends at the new total and every other line is left alone. */
  lemma AddItemSimpleHolds(items: seq<SaleItem>, product: Product, quantity: int, freshId: string)
    requires 0 < quantity && 0 <= CurrentQuantity(items, product.id)
    requires CurrentQuantity(items, product.id) + quantity <= product.stock
    ensures AddItemSimple(items, product, quantity, freshId).Applied?
    ensures HoldsAt(items, AddItemSimple(items, product, quantity, freshId).items, product.id,
                    CurrentQuantity(items, product.id) + quantity)
  {
    if Find(items, ForProduct(product.id)) != -1 {
      AddItemSimpleRaisesLine(items, [], product, quantity, freshId);
    } else {
      AddItemSimpleAppendsLine(items, [], product, quantity, freshId);
    }
  }

  lemma AddItemSimpleKeepsCartValid(items: seq<SaleItem>, catalog: seq<Product>, product: Product,
                                    quantity: int, freshId: string)
    requires ValidCart(items, catalog)
    requires FindProduct(catalog, product.id) == Some(product)
    requires Find(items, WithId(freshId)) == -1
    requires quantity > 0
    ensures AddItemSimple(items, product, quantity, freshId).Applied? ==>
              ValidCart(AddItemSimple(items, product, quantity, freshId).items, catalog)
  {
    var i := Find(items, ForProduct(product.id));
    if CurrentQuantity(items, product.id) + quantity <= product.stock {
      if i != -1 {
        assert LineOk(items[i], catalog);
        AddItemSimpleRaisesLine(items, catalog, product, quantity, freshId);
      } else {
        AddItemSimpleAppendsLine(items, catalog, product, quantity, freshId);
      }
    }
  }

  // The two branches of the older `handleAddItem` that change the cart.

  lemma AddItemSimpleRaisesLine(items: seq<SaleItem>, catalog: seq<Product>, product: Product, quantity: int,
                                freshId: string)
    requires Find(items, ForProduct(product.id)) != -1
    requires 0 < CurrentQuantity(items, product.id) + quantity <= product.stock
    ensures var n := CurrentQuantity(items, product.id) + quantity;
            && AddItemSimple(items, product, quantity, freshId) == Applied(SetQuantity(items, ForProduct(product.id), n))
            && HoldsAt(items, AddItemSimple(items, product, quantity, freshId).items, product.id, n)
    ensures ValidCart(items, catalog) && FindProduct(catalog, product.id) == Some(product) ==>
              ValidCart(AddItemSimple(items, product, quantity, freshId).items, catalog)
  {
    var n := CurrentQuantity(items, product.id) + quantity;
    SetHolds(items, product.id, n);
    if ValidCart(items, catalog) && FindProduct(catalog, product.id) == Some(product) {
      SetProductKeepsCartValid(items, catalog, product, n);
    }
  }

  lemma AddItemSimpleAppendsLine(items: seq<SaleItem>, catalog: seq<Product>, product: Product, quantity: int,
                                 freshId: string)
    requires Find(items, ForProduct(product.id)) == -1
    requires 0 < quantity <= product.stock
    ensures AddItemSimple(items, product, quantity, freshId) == Applied(items + [NewLine(product, quantity, freshId)])
    ensures HoldsAt(items, AddItemSimple(items, product, quantity, freshId).items, product.id, quantity)
    ensures ValidCart(items, catalog) && FindProduct(catalog, product.id) == Some(product)
            && Find(items, WithId(freshId)) == -1 ==>
              ValidCart(AddItemSimple(items, product, quantity, freshId).items, catalog)
  {
    AppendHolds(items, product, quantity, freshId);
    if ValidCart(items, catalog) && FindProduct(catalog, product.id) == Some(product)
       && Find(items, WithId(freshId)) == -1 {
      AppendProductKeepsCartValid(items, catalog, product, quantity, freshId);
    }
  }

  // ---------------------------------------------------------------------
  // handleRemoveItem (both screens)

  /** Removing a line keeps the cart well-formed, and afterwards no line
      has that id. */
  lemma RemoveItemKeepsCartValid(items: seq<SaleItem>, catalog: seq<Product>, itemId: string)
    requires ValidCart(items, catalog)
    ensures ValidCart(Without(items, WithId(itemId)), catalog)
    ensures Find(Without(items, WithId(itemId)), WithId(itemId)) == -1
  {
    WithoutKeepsCartValid(items, WithId(itemId), catalog);
  }

  // ---------------------------------------------------------------------
  // handleQuantityChange (both screens). Only the sales screen's quantity
  // box can hand it 0 (typed, or a cleared box); the new-sale screen calls
  // it from the -/+ buttons, and its - button is disabled at quantity 1.

  /** Whether the typed quantity `q` is accepted for line `itemId`: the
      line and its product exist and `0 <= q <= stock`. */
  predicate QuantityAccepted(items: seq<SaleItem>, itemId: string, q: int, catalog: seq<Product>)
  {
    var i := Find(items, WithId(itemId));
    && i != -1
    && FindProduct(catalog, items[i].productId).Some?
    && 0 <= q <= FindProduct(catalog, items[i].productId).value.stock
  }

  /** The typed quantity (after `parseInt(..) || 0`) is applied to the line
      only when accepted; otherwise the cart is unchanged.  A quantity of
      0 keeps the line, with quantity 0. */
  function ChangeQuantity(items: seq<SaleItem>, itemId: string, q: int, catalog: seq<Product>): (r: seq<SaleItem>)
    ensures |r| == |items|
    ensures !QuantityAccepted(items, itemId, q, catalog) ==> r == items
    ensures QuantityAccepted(items, itemId, q, catalog) ==>
              var i := Find(items, WithId(itemId));
              && r[i] == Retotal(items[i], q)
              && Without(r, WithId(itemId)) == Without(items, WithId(itemId))
  {
    var i := Find(items, WithId(itemId));
    if i == -1 then items
    else match FindProduct(catalog, items[i].productId)
      case Some(p) =>
        if 0 <= q <= p.stock then
          SetQuantityKeepsOthers(items, WithId(itemId), q);
          SetQuantity(items, WithId(itemId), q)
        else items
      case None => items
  }

  /** The as-written quantity change breaks the cart invariant: lowering a
      one-unit line to 0 leaves a line of quantity 0 in the cart, which
      the save then records as a zero-unit sale line. */
  lemma ChangeQuantityLeavesEmptyLine()
    ensures var catalog := [Product("p1", "Yerba", None, 2.0, 5, 1, "Almacen", "t", "t")];
            var cart := [SaleItem("i1", "p1", "Yerba", 1, 2.0, 2.0)];
            && ValidCart(cart, catalog)
            && !ValidCart(ChangeQuantity(cart, "i1", 0, catalog), catalog)
  {
    var catalog := [Product("p1", "Yerba", None, 2.0, 5, 1, "Almacen", "t", "t")];
    var cart := [SaleItem("i1", "p1", "Yerba", 1, 2.0, 2.0)];
    assert FindProduct(catalog, "p1") == Some(catalog[0]);
    assert Find(cart, WithId("i1")) == 0;
    assert ChangeQuantity(cart, "i1", 0, catalog)[0].quantity == 0;
  }

  /** The quantity change as the other cart operations behave: an accepted
      quantity of 0 removes the line instead of keeping an empty one. */
  function ChangeQuantityDroppingZero(items: seq<SaleItem>, itemId: string, q: int, catalog: seq<Product>)
    : (r: seq<SaleItem>)
    ensures !QuantityAccepted(items, itemId, q, catalog) ==> r == items
    ensures QuantityAccepted(items, itemId, q, catalog) && q == 0 ==>
              r == Without(items, WithId(itemId)) && Find(r, WithId(itemId)) == -1
    ensures q != 0 ==> r == ChangeQuantity(items, itemId, q, catalog)
  {
    if q == 0 && QuantityAccepted(items, itemId, q, catalog) then Without(items, WithId(itemId))
    else ChangeQuantity(items, itemId, q, catalog)
  }

  lemma ChangeQuantityDroppingZeroKeepsCartValid(items: seq<SaleItem>, itemId: string, q: int,
                                                 catalog: seq<Product>)
    requires ValidCart(items, catalog)
    ensures ValidCart(ChangeQuantityDroppingZero(items, itemId, q, catalog), catalog)
  {
    if QuantityAccepted(items, itemId, q, catalog) {
      var key := WithId(itemId);
      if q == 0 {
        WithoutKeepsCartValid(items, key, catalog);
      } else {
        AcceptedChangeKeepsCartValid(items, itemId, q, catalog);
      }
    }
  }

  /** A line put at a positive quantity within its product's stock, with
      its total worked out again, is well-formed. */
  lemma RetotalOk(l: SaleItem, q: int, catalog: seq<Product>)
    requires FindProduct(catalog, l.productId).Some? && 0 < q <= FindProduct(catalog, l.productId).value.stock
    ensures LineOk(Retotal(l, q), catalog)
  {
  }

  /** An accepted positive quantity rewrites one line within its product's
      stock, so the cart stays well-formed. */
  lemma AcceptedChangeKeepsCartValid(items: seq<SaleItem>, itemId: string, q: int, catalog: seq<Product>)
    requires ValidCart(items, catalog) && QuantityAccepted(items, itemId, q, catalog) && q != 0
    ensures ValidCart(ChangeQuantity(items, itemId, q, catalog), catalog)
  {
    var key := WithId(itemId);
    var i := Find(items, key);
    assert ChangeQuantity(items, itemId, q, catalog) == SetQuantity(items, key, q);
    RetotalOk(items[i], q, catalog);
    forall j | 0 <= j < |items| && Matches(items[j], key) ensures LineOk(Retotal(items[j], q), catalog) {
      assert j == i;
    }
    SetQuantityKeepsCartValid(items, key, q, catalog);
  }

  // ---------------------------------------------------------------------
  // NuevaVentaScreen.confirmQuantityInput

  /** Applies the quantity typed for product `target` (the dialog's product
      id; none or empty means no dialog).  Within `0..stock` the product is
      put at that quantity; above stock is refused; a negative value, or a
      product no longer in the catalog, leaves the cart unchanged. */
  function ConfirmQuantity(items: seq<SaleItem>, target: Option<string>, q: int, catalog: seq<Product>,
                           freshId: string): (r: CartResult)
    ensures (target.None? || target.value == "") ==> r == Applied(items)
    ensures target.Some? && target.value != "" ==>
              match FindProduct(catalog, target.value)
              case None => r == Applied(items)
              case Some(p) =>
                && (r.InsufficientStock? <==> q > p.stock)
                && (r.InsufficientStock? ==> r.available == p.stock)
                && (q < 0 && q <= p.stock ==> r == Applied(items))
                && (0 <= q <= p.stock ==> r.Applied? && HoldsAt(items, r.items, p.id, q))
  {
    if target.None? || target.value == "" then Applied(items)
    else match FindProduct(catalog, target.value)
      case None => Applied(items)
      case Some(p) =>
        if 0 <= q <= p.stock then Applied(PutQuantity(items, p, q, freshId))
        else if q > p.stock then InsufficientStock(p.stock)
        else Applied(items)
  }

  /** `confirmQuantityInput` from the dialog's text: an empty or
      unreadable box counts as 0, so confirming it takes the product out
      of the cart. */
  function ConfirmTyped(items: seq<SaleItem>, target: Option<string>, typed: Field<int>,
                        catalog: seq<Product>, freshId: string): (r: CartResult)
    ensures typed.Parsed? ==> r == ConfirmQuantity(items, target, typed.value, catalog, freshId)
    ensures !typed.Parsed? && target.Some? && target.value != "" ==>
              match FindProduct(catalog, target.value)
              case None => r == Applied(items)
              case Some(p) => p.stock >= 0 ==> r.Applied? && HoldsAt(items, r.items, p.id, 0)
  {
    ConfirmQuantity(items, target, OrZero(typed), catalog, freshId)
  }

  lemma ConfirmQuantityKeepsCartValid(items: seq<SaleItem>, target: Option<string>, q: int,
                                      catalog: seq<Product>, freshId: string)
    requires ValidCart(items, catalog)
    requires Find(items, WithId(freshId)) == -1
    ensures ConfirmQuantity(items, target, q, catalog, freshId).Applied? ==>
              ValidCart(ConfirmQuantity(items, target, q, catalog, freshId).items, catalog)
  {
    if target.Some? && target.value != "" && FindProduct(catalog, target.value).Some? {
      var p := FindProduct(catalog, target.value).value;
      if 0 <= q <= p.stock {
        PutQuantityKeepsCartValid(items, catalog, p, q, freshId);
      }
    }
  }
}
