/** The price arithmetic shared by the booking controller and the booking
    form preview, in exact real arithmetic. */
module Pricing {
  import opened Common
  import opened Model

  /** The undiscounted price: unit price times the traveler count. */
  function Original(unitPrice: int, travelers: real): real
  {
    unitPrice as real * travelers
  }

  /** The original price minus discountPercentage percent of it. */
  function Discounted(original: real, discountPercentage: real): (r: real)
    ensures r * 100.0 == original * (100.0 - discountPercentage)
    ensures original - r == original * discountPercentage / 100.0
  {
    original - original * (discountPercentage / 100.0)
  }

  /** The final price of a booking: discounted when a coupon snapshot is given. */
  function Total(unitPrice: int, travelers: real, coupon: Option<CouponSnapshot>): (r: real)
    ensures coupon.None? ==> r == Original(unitPrice, travelers)
    ensures coupon.Some? ==> r * 100.0 == Original(unitPrice, travelers) * (100.0 - coupon.value.discountPercentage)
  {
    var original := Original(unitPrice, travelers);
    if coupon.Some? then Discounted(original, coupon.value.discountPercentage) else original
  }

  /** A discount within the schema's bounds never makes the price negative
      nor raises it. */
  lemma DiscountBounds(original: real, discountPercentage: real)
    requires original >= 0.0
    requires 1.0 <= discountPercentage <= 100.0
    ensures 0.0 <= Discounted(original, discountPercentage) <= original
  {
    var r := Discounted(original, discountPercentage);
    var k := 100.0 - discountPercentage;
    assert 0.0 <= k <= 99.0;
    assert r * 100.0 == original * k;
    assert original * k >= 0.0;
    assert original * k <= original * 100.0;
  }
}
