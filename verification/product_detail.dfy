/**
 * The logic of `ProductDetailsScreen`: the gallery list, the 1-to-10 quantity stepper, the
 * "Add to Bag" handler that dispatches one ADD_TO_CART per unit, and the stock line.
 */
module ProductDetail {
  import opened Common
  import opened Entities
  import Store
  import ProductCard

  const MinQuantity := 1
  const MaxQuantity := 10

  /** `product.images || [product.thumbnail]`: any images array (even an empty one) wins. */
  function Gallery(p: Product): (r: seq<Option<string>>)
    ensures p.images.Some? ==> |r| == |p.images.value| && forall i | 0 <= i < |r| :: r[i] == Some(p.images.value[i])
    ensures p.images.None? ==> r == [p.thumbnail]
  {
    match p.images
    case Some(l) => seq(|l|, i requires 0 <= i < |l| => Some(l[i]))
    case None => [p.thumbnail]
  }

  /**
   * The card and the detail screen agree on the first picture when the card falls back to
   * `images[0]`; without an images array both show the thumbnail.
   */
  lemma GalleryStartsWithCardImage(p: Product)
    ensures (&& !(p.thumbnail.Some? && p.thumbnail.value != "")
             && p.images.Some? && |p.images.value| > 0 && p.images.value[0] != "")
      ==> Gallery(p)[0] == Some(ProductCard.ImageSource(p))
    ensures p.images.None? && p.thumbnail.Some? && p.thumbnail.value != ""
      ==> Gallery(p) == [Some(ProductCard.ImageSource(p))]
  {
  }

  /** `updateQuantity(change)`: the step is taken only when it lands within 1..10. */
  function UpdateQuantity(quantity: int, change: int): (r: int)
    ensures MinQuantity <= quantity + change <= MaxQuantity ==> r == quantity + change
    ensures !(MinQuantity <= quantity + change <= MaxQuantity) ==> r == quantity
  {
    var n := quantity + change;
    if MinQuantity <= n <= MaxQuantity then n else quantity
  }

  /** The stepper after a run of button presses. */
  function ApplyChanges(quantity: int, changes: seq<int>): int
    decreases |changes|
  {
    if |changes| == 0 then quantity else ApplyChanges(UpdateQuantity(quantity, changes[0]), changes[1..])
  }

  /** Starting anywhere in range, no run of presses leaves the range 1..10. */
  lemma {:induction false} StepperStaysInRange(quantity: int, changes: seq<int>)
    requires MinQuantity <= quantity <= MaxQuantity
    ensures MinQuantity <= ApplyChanges(quantity, changes) <= MaxQuantity
    decreases |changes|
  {
    if |changes| > 0 {
      StepperStaysInRange(UpdateQuantity(quantity, changes[0]), changes[1..]);
    }
  }

  /** `+` then `-` returns to where it started, and so does `-` then `+`, away from the bounds. */
  lemma StepperUndo(quantity: int)
    requires MinQuantity <= quantity <= MaxQuantity
    ensures quantity < MaxQuantity ==> UpdateQuantity(UpdateQuantity(quantity, 1), -1) == quantity
    ensures quantity > MinQuantity ==> UpdateQuantity(UpdateQuantity(quantity, -1), 1) == quantity
  {
  }

  /** The quantity of the first cart line for `id`, or 0 when there is none. */
  function QuantityOf(cart: seq<CartLine>, id: int): int
  {
    match Store.LineOf(cart, id)
    case Some(l) => l.quantity
    case None => 0
  }

  /** `handleAddToBag()`: `quantity` ADD_TO_CART dispatches of the same product, in order. */
  function AddToBag(s: Store.State, p: Product, quantity: int): Store.State
    decreases quantity
  {
    if quantity <= 0 then s else AddToBag(Store.Step(s, Store.AddToCart(p)), p, quantity - 1)
  }

  /** `LineOf` finds the line at `i` when no earlier line has that id. */
  lemma {:induction false} LineOfFirst(cart: seq<CartLine>, id: int, i: int)
    requires 0 <= i < |cart| && cart[i].id() == id
    requires forall j | 0 <= j < i :: cart[j].id() != id
    ensures Store.LineOf(cart, id) == Some(cart[i])
    decreases i
  {
    if i > 0 {
      LineOfFirst(cart[1..], id, i - 1);
    }
  }

  /** One ADD_TO_CART raises the product's line quantity by one, counting a missing line as 0. */
  lemma AddOneRaisesQuantity(s: Store.State, p: Product)
    requires Store.UniqueLines(s.cart)
    ensures QuantityOf(Store.Step(s, Store.AddToCart(p)).cart, p.id) == QuantityOf(s.cart, p.id) + 1
  {
    var c := Store.Step(s, Store.AddToCart(p)).cart;
    if Store.LineOf(s.cart, p.id).Some? {
      var i :| 0 <= i < |s.cart| && s.cart[i].id() == p.id;
      LineOfFirst(s.cart, p.id, i);
      LineOfFirst(c, p.id, i);
    } else {
      assert forall j | 0 <= j < |s.cart| :: s.cart[j].id() != p.id;
      LineOfFirst(c, p.id, |s.cart|);
    }
  }

  /**
   * Adding `n` units from the detail screen keeps one line per product, raises the item count
   * by `n` and raises the product's own line by `n`. The stock is not consulted.
   */
  lemma {:induction false} AddToBagEffect(s: Store.State, p: Product, n: int)
    requires Store.UniqueLines(s.cart) && n >= 0
    ensures Store.UniqueLines(AddToBag(s, p, n).cart)
    ensures Store.ItemsCount(AddToBag(s, p, n).cart) == Store.ItemsCount(s.cart) + n
    ensures QuantityOf(AddToBag(s, p, n).cart, p.id) == QuantityOf(s.cart, p.id) + n
    ensures n > 0 ==> Store.HasLine(AddToBag(s, p, n).cart, p.id)
    decreases n
  {
    if n > 0 {
      var t := Store.Step(s, Store.AddToCart(p));
      Store.AddToCartOneLinePerProduct(s, p);
      Store.AddToCartShape(s, p);
      AddOneRaisesQuantity(s, p);
      AddToBagEffect(t, p, n - 1);
      assert AddToBag(s, p, n) == AddToBag(t, p, n - 1);
    }
  }

  /** Adding to the bag changes nothing but the cart and keeps the store invariant. */
  lemma {:induction false} AddToBagKeepsValid(s: Store.State, p: Product, n: int)
    requires n >= 0
    ensures AddToBag(s, p, n).(cart := s.cart) == s
    ensures Store.Valid(s) ==> Store.Valid(AddToBag(s, p, n))
    decreases n
  {
    if n > 0 {
      var t := Store.Step(s, Store.AddToCart(p));
      if Store.Valid(s) {
        Store.AddToCartPreservesValid(s, p);
      }
      AddToBagKeepsValid(t, p, n - 1);
      assert AddToBag(s, p, n) == AddToBag(t, p, n - 1);
    }
  }

  /** The stock line: "In Stock (N available)" for a positive stock, otherwise "Out of Stock". */
  predicate InStock(p: Product)
  {
    p.stock > 0
  }

  /** The "Add to Bag" button is disabled only for a stock of exactly zero. */
  predicate AddDisabled(p: Product)
  {
    p.stock == 0
  }

  /**
   * For a non-negative stock the button is enabled exactly when the product is shown in stock;
   * a negative stock is shown out of stock yet leaves the button enabled.
   */
  lemma ButtonFollowsStock(p: Product)
    ensures p.stock >= 0 ==> (AddDisabled(p) <==> !InStock(p))
    ensures p.stock < 0 ==> !InStock(p) && !AddDisabled(p)
  {
  }

  /**
   * A product the card marks "Low Stock" is shown in stock on the detail screen and can always be
   * added to the bag; one shown in stock but not marked has more than five units.
   */
  lemma LowStockCanBeAdded(p: Product)
    ensures ProductCard.LowStock(p) ==> InStock(p) && !AddDisabled(p)
    ensures InStock(p) && !ProductCard.LowStock(p) ==> p.stock > ProductCard.LowStockLimit
  {
  }
}
