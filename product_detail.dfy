/**
 * The product page's quantity selector and its star rating. The quantity
 * to add to the cart only moves within 1 and the product's stock (or 10
 * when the stock is 0 or the product has not loaded); a rating, kept in
 * tenths of a star, is drawn as full, half and empty stars.
 */
module ProductDetail {
  import opened Wrappers

  /** The most the selector allows when the stock gives no limit. */
  const DefaultQuantityLimit: int := 10

  /**
   * `product?.stock || 10`: the stock of the loaded product, or 10 when
   * there is no product yet or its stock is 0.
   */
  function QuantityBound(stock: Option<int>): (b: int)
    ensures stock.Some? && stock.value != 0 ==> b == stock.value
    ensures stock.None? || stock.value == 0 ==> b == DefaultQuantityLimit
    ensures (stock.None? || stock.value >= 0) ==> b >= 1
  {
    if stock.None? || stock.value == 0 then DefaultQuantityLimit else stock.value
  }

  /**
   * The quantity after a change request: the requested one when it is
   * positive and within the bound, the current one otherwise. A quantity
   * within the bound stays within it.
   */
  function NextQuantity(current: int, requested: int, stock: Option<int>): (q: int)
    ensures q == requested || q == current
    ensures q == requested <==> (0 < requested <= QuantityBound(stock) || requested == current)
    ensures 1 <= current <= QuantityBound(stock) ==> 1 <= q <= QuantityBound(stock)
  {
    if 0 < requested <= QuantityBound(stock) then requested else current
  }

  /** The quantities reached from `current` after each request in turn. */
  function QuantityAfter(current: int, requests: seq<int>, stock: Option<int>): int
    decreases |requests|
  {
    if requests == [] then current
    else QuantityAfter(NextQuantity(current, requests[0], stock), requests[1..], stock)
  }

  /**
   * Whatever the requests, a quantity that starts at 1 stays between 1
   * and the bound, as long as the stock is not negative.
   */
  lemma {:induction false} QuantityStaysInRange(current: int, requests: seq<int>, stock: Option<int>)
    requires stock.None? || stock.value >= 0
    requires 1 <= current <= QuantityBound(stock)
    ensures 1 <= QuantityAfter(current, requests, stock) <= QuantityBound(stock)
    decreases |requests|
  {
    if requests != [] {
      QuantityStaysInRange(NextQuantity(current, requests[0], stock), requests[1..], stock);
    }
  }

  /**
   * The minus and plus buttons ask for one less and one more, and are
   * enabled only above 1 and below the bound; an enabled button always
   * takes effect.
   */
  lemma Buttons(current: int, stock: Option<int>)
    ensures 1 < current <= QuantityBound(stock) + 1 ==> NextQuantity(current, current - 1, stock) == current - 1
    ensures current <= 1 ==> NextQuantity(current, current - 1, stock) == current
    ensures 0 <= current < QuantityBound(stock) ==> NextQuantity(current, current + 1, stock) == current + 1
    ensures current >= QuantityBound(stock) ==> NextQuantity(current, current + 1, stock) == current
  {
  }

  /** The selector's state on the product page. */
  class QuantitySelector {
    var quantity: int

    constructor ()
      ensures quantity == 1
    {
      quantity := 1;
    }

    /** `handleQuantityChange`: take the requested quantity if it is allowed. */
    method HandleQuantityChange(requested: int, stock: Option<int>)
      modifies this
      ensures quantity == NextQuantity(old(quantity), requested, stock)
      ensures 1 <= old(quantity) <= QuantityBound(stock) ==> 1 <= quantity <= QuantityBound(stock)
    {
      if 0 < requested && requested <= QuantityBound(stock) {
        quantity := requested;
      }
    }
  }

  /** How many stars of each kind are drawn. */
  datatype StarCounts = StarCounts(full: int, half: bool, empty: int)

  /**
   * The split of a rating given in tenths (`rating || '0'`: no rating is
   * 0): whole stars are the rating rounded down, a half star is drawn when
   * the remaining tenths are 5 or more, and the empty stars make up five.
   */
  function Stars(rating: Option<int>): (s: StarCounts)
    ensures var t := if rating.Some? then rating.value else 0;
            && 10 * s.full <= t < 10 * s.full + 10
            && (s.half <==> t - 10 * s.full >= 5)
            && s.full + (if s.half then 1 else 0) + s.empty == 5
  {
    var tenths := if rating.Some? then rating.value else 0;
    var full := tenths / 10;
    var half := tenths - full * 10 >= 5;
    StarCounts(full, half, 5 - full - (if half then 1 else 0))
  }

  /** `Array(n)` accepts only non-negative lengths. */
  predicate Drawable(s: StarCounts) {
    s.full >= 0 && s.empty >= 0
  }

  /**
   * The stars can be drawn exactly for ratings from 0.0 to 5.4; from 5.5
   * on the half star leaves a negative number of empty stars.
   */
  lemma {:induction false} StarsDrawable(rating: Option<int>)
    ensures var t := if rating.Some? then rating.value else 0;
            Drawable(Stars(rating)) <==> 0 <= t <= 54
  {
    var t := if rating.Some? then rating.value else 0;
    var s := Stars(rating);
    if 0 <= t <= 54 {
      assert 0 <= s.full <= 5;
      assert s.full == 5 ==> !s.half;
    }
  }

  /** Concrete splits: 4.5 is four full and a half, 4.0 and no rating draw no half. */
  lemma StarExamples()
    ensures Stars(Some(45)) == StarCounts(4, true, 0)
    ensures Stars(Some(40)) == StarCounts(4, false, 1)
    ensures Stars(Some(47)) == StarCounts(4, true, 0)
    ensures Stars(None) == StarCounts(0, false, 5)
  {
  }
}
