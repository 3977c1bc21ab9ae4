/**
 * The five-star rating row drawn by `renderRating` in `ProductCard` and `renderStars` in
 * `ProductDetailScreen`: `Math.floor(rating)` filled stars, one half star when the rating has a
 * fractional part, then `5 - Math.ceil(rating)` empty stars (a loop with a non-positive bound
 * draws nothing). Ratings are exact reals.
 */
module Stars {
  import opened Common

  datatype StarRow = StarRow(full: nat, half: bool, empty: nat)
  {
    /** The number of star icons drawn. */
    function Count(): nat { full + (if half then 1 else 0) + empty }
  }

  /** `Math.ceil` on reals. */
  function Ceil(r: real): (c: int)
    ensures (c - 1) as real < r <= c as real
  {
    -((-r).Floor)
  }

  /** The star row for `rating`. */
  function Row(rating: real): (s: StarRow)
    ensures rating >= 0.0 ==> s.full as real <= rating < s.full as real + 1.0
    ensures rating <= 0.0 ==> s.full == 0
    ensures rating >= 0.0 ==> (s.half <==> s.full as real < rating)
    ensures s.half <==> rating.Floor as real != rating
    ensures rating >= 5.0 ==> s.empty == 0
    ensures rating <= 5.0 ==> s.empty as real + rating <= 5.0 < s.empty as real + rating + 1.0
  {
    var f := rating.Floor;
    StarRow(if f < 0 then 0 else f, f as real != rating, if 5 - Ceil(rating) < 0 then 0 else 5 - Ceil(rating))
  }

  /** A rating on the 0-to-5 scale always draws exactly five icons. */
  lemma FiveIconsInRange(rating: real)
    requires 0.0 <= rating <= 5.0
    ensures Row(rating).Count() == 5
  {
    var s := Row(rating);
    var f := rating.Floor;
    if f as real == rating {
      assert Ceil(rating) == f;
    } else {
      assert Ceil(rating) == f + 1;
    }
  }

  /** Whole ratings draw no half star; in particular the fixed review rows of 5 and 4 stars. */
  lemma WholeRatings()
    ensures Row(5.0) == StarRow(5, false, 0)
    ensures Row(4.0) == StarRow(4, false, 1)
    ensures Row(4.5) == StarRow(4, true, 0)
  {
    assert Ceil(5.0) == 5 && Ceil(4.0) == 4 && Ceil(4.5) == 5;
  }

  /** A higher rating never draws fewer filled stars or more empty ones. */
  lemma RowMonotone(a: real, b: real)
    requires a <= b
    ensures Row(a).full <= Row(b).full && Row(a).empty >= Row(b).empty
  {
    assert a.Floor <= b.Floor;
    assert Ceil(a) <= Ceil(b);
  }

  /**
   * The card's `if (!rating) return null`: nothing is drawn for a missing or zero rating; any
   * other rating draws its row. (The detail screen's `{product.rating && ...}` instead renders the
   * number 0 for a zero rating; that text output is not part of this model.)
   */
  function RatingStars(rating: Option<real>): (r: Option<StarRow>)
    ensures r.None? <==> rating.None? || rating.value == 0.0
    ensures r.Some? ==> r.value == Row(rating.value)
  {
    match rating
    case None => None
    case Some(v) => if v == 0.0 then None else Some(Row(v))
  }
}
