/**
 * The derived values `ProductCard` shows for a product: the image it loads, its price after
 * discount, and the discount and low-stock badges. Prices are exact reals; the two-decimal
 * `toFixed` formatting is not part of this model.
 */
module ProductCard {
  import opened Common
  import opened Entities

  const Placeholder := "https://via.placeholder.com/200x200?text=No+Image"
  const LowStockLimit := 5

  /**
   * `thumbnail || (images && images[0]) || placeholder`: the first of the thumbnail and the
   * first listed image that is present and non-empty, else the placeholder.
   */
  function ImageSource(p: Product): (uri: string)
    ensures p.thumbnail.Some? && p.thumbnail.value != "" ==> uri == p.thumbnail.value
    ensures !(p.thumbnail.Some? && p.thumbnail.value != "")
         && p.images.Some? && |p.images.value| > 0 && p.images.value[0] != ""
         ==> uri == p.images.value[0]
    ensures !(p.thumbnail.Some? && p.thumbnail.value != "")
         && !(p.images.Some? && |p.images.value| > 0 && p.images.value[0] != "")
         ==> uri == Placeholder
    ensures uri != Placeholder ==>
      (p.thumbnail.Some? && uri == p.thumbnail.value) || (p.images.Some? && uri in p.images.value)
  {
    if p.thumbnail.Some? && p.thumbnail.value != "" then p.thumbnail.value
    else if p.images.Some? && |p.images.value| > 0 && p.images.value[0] != "" then p.images.value[0]
    else Placeholder
  }

  /** The card never asks for an image without an address. */
  lemma ImageSourceNeverEmpty(p: Product)
    ensures ImageSource(p) != ""
  {
  }

  /** Whether `discountPercentage` is truthy: present and not zero. */
  predicate HasDiscount(p: Product)
  {
    p.discountPercentage.Some? && p.discountPercentage.value != 0.0
  }

  /** `price - price * discountPercentage / 100` when the discount is truthy, else the price. */
  function DiscountedPrice(p: Product): (r: real)
    ensures !HasDiscount(p) ==> r == p.price
    ensures HasDiscount(p) ==> r * 100.0 == p.price * (100.0 - p.discountPercentage.value)
  {
    if HasDiscount(p) then p.price - p.price * p.discountPercentage.value / 100.0 else p.price
  }

  /** `Math.round`: the nearest integer, halves rounded up. */
  function Round(x: real): (n: int)
    ensures x - 0.5 < n as real <= x + 0.5
  {
    (x + 0.5).Floor
  }

  /** The `-N%` badge: shown exactly for a positive discount, with the rounded percentage. */
  function DiscountBadge(p: Product): (badge: Option<int>)
    ensures badge.Some? <==> p.discountPercentage.Some? && p.discountPercentage.value > 0.0
    ensures badge.Some? ==> badge.value >= 0 && badge.value == Round(p.discountPercentage.value)
  {
    if p.discountPercentage.Some? && p.discountPercentage.value > 0.0 then
      Some(Round(p.discountPercentage.value))
    else None
  }

  /** The "Low Stock" badge: between one and five units left. */
  predicate LowStock(p: Product)
  {
    0 < p.stock <= LowStockLimit
  }

  /**
   * For a positive price and a percentage between 0 and 100, the badge appears exactly when the
   * shown price is below the list price, and the shown price never goes below zero.
   */
  lemma BadgeMatchesPriceCut(p: Product)
    requires p.price > 0.0
    requires p.discountPercentage.Some? ==> 0.0 <= p.discountPercentage.value <= 100.0
    ensures DiscountBadge(p).Some? <==> DiscountedPrice(p) < p.price
    ensures 0.0 <= DiscountedPrice(p) <= p.price
  {
    if HasDiscount(p) {
      var d := p.discountPercentage.value;
      assert DiscountedPrice(p) * 100.0 == p.price * (100.0 - d);
      var x := DiscountedPrice(p);
      assert p.price * (100.0 - d) <= p.price * 100.0;
      assert 0.0 <= p.price * (100.0 - d);
      assert x * 100.0 >= 0.0 ==> x >= 0.0;
      assert x * 100.0 <= p.price * 100.0 ==> x <= p.price;
    }
  }
}
