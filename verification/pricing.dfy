/** The money arithmetic of the new-sale screen: the cart subtotal, the
    global discount (a percentage or a fixed amount) and the total, which
    is floored at zero. */
module Pricing {
  import opened Domain

  datatype DiscountKind = Percentage | Fixed

  datatype Discount = Discount(kind: DiscountKind, value: real)

  function Min(a: real, b: real): real
  {
    if a <= b then a else b
  }

  function Max(a: real, b: real): real
  {
    if a >= b then a else b
  }

  /** `calculateSubtotal`: the sum of the line totals. */
  function Subtotal(items: seq<SaleItem>): real
  {
    SumTotals(items)
  }

  /** `calculateGlobalDiscount`: nothing for a zero value; otherwise a
      percentage of the subtotal, or a fixed amount capped at the
      subtotal. */
  function DiscountAmount(subtotal: real, d: Discount): (r: real)
    ensures d.value == 0.0 ==> r == 0.0
    ensures d.value != 0.0 && d.kind == Percentage ==> r * 100.0 == subtotal * d.value
    ensures d.value != 0.0 && d.kind == Fixed ==>
              r <= subtotal && r <= d.value && (r == subtotal || r == d.value)
  {
    if d.value == 0.0 then 0.0
    else match d.kind
      case Percentage => subtotal * d.value / 100.0
      case Fixed => Min(d.value, subtotal)
  }

  /** `calculateTotal`: the subtotal less the discount, never below zero.
      A discount that is not negative never raises the price. */
  function Total(subtotal: real, d: Discount): (r: real)
    ensures r >= 0.0
    ensures r >= subtotal - DiscountAmount(subtotal, d)
    ensures r == 0.0 || r == subtotal - DiscountAmount(subtotal, d)
    ensures 0.0 <= subtotal && 0.0 <= DiscountAmount(subtotal, d) ==> r <= subtotal
  {
    Max(0.0, subtotal - DiscountAmount(subtotal, d))
  }

  /** A percentage between 0 and 100 takes away between nothing and the
      whole of a non-negative subtotal. */
  lemma PercentageWithinSubtotal(subtotal: real, value: real)
    requires 0.0 <= subtotal && 0.0 <= value <= 100.0
    ensures 0.0 <= DiscountAmount(subtotal, Discount(Percentage, value)) <= subtotal
  {
    var r := DiscountAmount(subtotal, Discount(Percentage, value));
    if value != 0.0 {
      assert r * 100.0 == subtotal * value;
      assert subtotal * value <= subtotal * 100.0;
    }
  }

  /** With a fixed discount the total is the plain difference, floored at
      zero: capping the discount at the subtotal changes nothing. */
  lemma FixedTotal(subtotal: real, value: real)
    requires 0.0 <= subtotal
    ensures Total(subtotal, Discount(Fixed, value)) == Max(0.0, subtotal - value)
  {
  }

  /** A full percentage discount makes the sale free; no discount leaves a
      non-negative subtotal as it is. */
  lemma DiscountExtremes(subtotal: real, kind: DiscountKind)
    requires 0.0 <= subtotal
    ensures Total(subtotal, Discount(Percentage, 100.0)) == 0.0
    ensures Total(subtotal, Discount(kind, 0.0)) == subtotal
  {
  }

  /** A larger percentage never yields a larger total. */
  lemma PercentageMonotone(subtotal: real, v1: real, v2: real)
    requires 0.0 <= subtotal && v1 <= v2
    ensures Total(subtotal, Discount(Percentage, v2)) <= Total(subtotal, Discount(Percentage, v1))
  {
    var d1 := DiscountAmount(subtotal, Discount(Percentage, v1));
    var d2 := DiscountAmount(subtotal, Discount(Percentage, v2));
    assert d1 * 100.0 == subtotal * v1 by {
      if v1 != 0.0 {
        assert d1 * 100.0 == subtotal * v1;
      }
    }
    assert d2 * 100.0 == subtotal * v2 by {
      if v2 != 0.0 {
        assert d2 * 100.0 == subtotal * v2;
      }
    }
    MulNonNegative(subtotal, v2 - v1);
    assert (d2 - d1) * 100.0 == subtotal * (v2 - v1);
    assert d1 <= d2;
  }

  lemma MulNonNegative(a: real, b: real)
    requires 0.0 <= a && 0.0 <= b
    ensures 0.0 <= a * b
  {
  }
}
