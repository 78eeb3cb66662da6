/** Price arithmetic on exact decimals: the percentage discount and the flat
    15% tax. */
module Pricing {

  /** `ApplyDiscount`: no clamping of either argument. */
  function ApplyDiscount(price: real, discountPercentage: real): (r: real)
    ensures price - r == price * discountPercentage / 100.0
  {
    price - (price * discountPercentage / 100.0)
  }

  const TaxRate: real := 0.15

  /** `CalculateTax` */
  function CalculateTax(amount: real): (tax: real)
    ensures tax * 100.0 == amount * 15.0
  {
    amount * TaxRate
  }

  /** The boundary cases: no discount, a full discount and a free product. */
  lemma DiscountBoundaries(price: real, pct: real)
    ensures ApplyDiscount(price, 0.0) == price
    ensures ApplyDiscount(price, 100.0) == 0.0
    ensures ApplyDiscount(0.0, pct) == 0.0
  {
  }

  /** 75.50 at 5% costs exactly 71.725. */
  lemma DiscountExample()
    ensures ApplyDiscount(75.50, 5.0) == 71.725
  {
  }

  /** Out-of-range percentages are not rejected: a negative one raises the
      price, one above 100 makes it negative. */
  lemma DiscountUnclamped(price: real, pct: real)
    requires price > 0.0
    ensures pct < 0.0 ==> ApplyDiscount(price, pct) > price
    ensures pct > 100.0 ==> ApplyDiscount(price, pct) < 0.0
  {
    if pct < 0.0 {
      assert price * pct < 0.0;
    } else if pct > 100.0 {
      assert price * (pct - 100.0) > 0.0;
    }
  }

  /** A percentage in [0, 100] keeps a non-negative price in [0, price], and a
      larger percentage never costs more. */
  lemma DiscountInRange(price: real, pct: real, pct2: real)
    requires price >= 0.0 && 0.0 <= pct <= 100.0 && pct <= pct2
    ensures 0.0 <= ApplyDiscount(price, pct) <= price
    ensures ApplyDiscount(price, pct2) <= ApplyDiscount(price, pct)
  {
    ProductNonNegative(price, pct);
    ProductNonNegative(price, 100.0 - pct);
    ProductNonNegative(price, pct2 - pct);
  }

  lemma ProductNonNegative(a: real, b: real)
    requires a >= 0.0 && b >= 0.0
    ensures a * b >= 0.0
  {
  }

  /** Tax of nothing is nothing; the tax of a non-negative amount lies between
      0 and the amount; the tax is additive. */
  lemma TaxProperties(a: real, b: real)
    ensures CalculateTax(0.0) == 0.0
    ensures a >= 0.0 ==> 0.0 <= CalculateTax(a) <= a
    ensures CalculateTax(a + b) == CalculateTax(a) + CalculateTax(b)
  {
  }

  /** The tax is the amount a 15% discount would take off. */
  lemma TaxIsFifteenPercentOff(amount: real)
    ensures CalculateTax(amount) == amount - ApplyDiscount(amount, 15.0)
  {
  }
}
