/**
 * The browser-side cart store: the lines last fetched from the server,
 * the drawer's open flag and a loading flag, and the totals derived from
 * the lines. Requests to the server are not modelled; each action takes
 * what its requests came back with as parameters.
 */
module CartStore {
  import opened Wrappers
  import opened Seqs

  /** The product fields the server attaches to a cart line. */
  datatype CartProduct = CartProduct(
    id: int,
    name: string,
    slug: string,
    price: int,
    compareAtPrice: Option<int>,
    imageUrl: string,
    categoryId: int)

  /** A cart line as fetched; `product` is absent when the server found none. */
  datatype CartLine = CartLine(
    id: int,
    sessionId: string,
    productId: int,
    quantity: int,
    createdAt: int,
    product: Option<CartProduct>)

  /** Orders whose subtotal is strictly above this ship free. */
  const FreeShippingAbove: int := 1000
  /** The flat shipping fee below the threshold. */
  const ShippingFee: int := 50

  function Quantity(item: CartLine): int {
    item.quantity
  }

  /** What a line adds to the subtotal: nothing without a product. */
  function LineAmount(item: CartLine): int {
    match item.product
    case None => 0
    case Some(p) => p.price * item.quantity
  }

  function CountStep(total: int, item: CartLine): int {
    total + item.quantity
  }

  function SubtotalStep(total: int, item: CartLine): int {
    if item.product.None? then total else total + item.product.value.price * item.quantity
  }

  /** The number of articles in the cart: the quantities added up. */
  function GetCartCount(items: seq<CartLine>): (r: int)
    ensures r == Sum(items, Quantity)
  {
    ReduceIsSum(items, CountStep, Quantity, 0);
    Reduce(items, CountStep, 0)
  }

  /** Price times quantity, added up over the lines that have a product. */
  function GetSubtotal(items: seq<CartLine>): (r: int)
    ensures r == Sum(items, LineAmount)
  {
    ReduceIsSum(items, SubtotalStep, LineAmount, 0);
    Reduce(items, SubtotalStep, 0)
  }

  function GetShipping(items: seq<CartLine>): int {
    if GetSubtotal(items) > FreeShippingAbove then 0 else ShippingFee
  }

  function GetTotal(items: seq<CartLine>): int {
    GetSubtotal(items) + GetShipping(items)
  }

  /**
   * The total is the subtotal plus either nothing or the flat fee; it is
   * the subtotal alone exactly when the subtotal is above 1000, so a
   * subtotal of exactly 1000 still pays the fee.
   */
  lemma ShippingAndTotal(items: seq<CartLine>)
    ensures GetShipping(items) == 0 || GetShipping(items) == ShippingFee
    ensures GetTotal(items) - GetSubtotal(items) == GetShipping(items)
    ensures GetTotal(items) >= GetSubtotal(items)
    ensures GetTotal(items) == GetSubtotal(items) <==> GetSubtotal(items) > FreeShippingAbove
    ensures GetSubtotal(items) == FreeShippingAbove ==> GetTotal(items) == FreeShippingAbove + ShippingFee
  {
  }

  /** Appending a line adds its quantity to the count and its amount to the subtotal. */
  lemma {:induction false} AppendLine(items: seq<CartLine>, line: CartLine)
    ensures GetCartCount(items + [line]) == GetCartCount(items) + line.quantity
    ensures GetSubtotal(items + [line]) == GetSubtotal(items) + LineAmount(line)
  {
    SumAppend(items, [line], Quantity);
    SumAppend(items, [line], LineAmount);
  }

  /** With non-negative prices and quantities, count and subtotal are non-negative. */
  lemma {:induction false} TotalsNonNegative(items: seq<CartLine>)
    requires forall x :: x in items ==> x.quantity >= 0
    requires forall x :: x in items && x.product.Some? ==> x.product.value.price >= 0
    ensures GetCartCount(items) >= 0 && GetSubtotal(items) >= 0
    ensures GetTotal(items) >= GetSubtotal(items) >= 0
  {
    SumNonNegative(items, Quantity);
    assert forall x :: x in items ==> LineAmount(x) >= 0 by {
      forall x | x in items
        ensures LineAmount(x) >= 0
      {
        if x.product.Some? {
          assert x.product.value.price * x.quantity >= 0;
        }
      }
    }
    SumNonNegative(items, LineAmount);
  }

  /** An emptied cart counts nothing, costs nothing and still shows the fee. */
  lemma EmptyCartTotals()
    ensures GetCartCount([]) == 0 && GetSubtotal([]) == 0
    ensures GetShipping([]) == ShippingFee && GetTotal([]) == ShippingFee
  {
  }

  /** One product at 600, twice: 1200, shipped free. One at 100, once: 150. */
  lemma PricingExamples(p600: CartProduct, p100: CartProduct)
    requires p600.price == 600 && p100.price == 100
    ensures var big := [CartLine(1, "s", p600.id, 2, 0, Some(p600))];
            GetSubtotal(big) == 1200 && GetShipping(big) == 0 && GetTotal(big) == 1200
    ensures var small := [CartLine(1, "s", p100.id, 1, 0, Some(p100))];
            GetSubtotal(small) == 100 && GetShipping(small) == 50 && GetTotal(small) == 150
  {
    SingleLine(CartLine(1, "s", p600.id, 2, 0, Some(p600)));
    SingleLine(CartLine(1, "s", p100.id, 1, 0, Some(p100)));
  }

  lemma SingleLine(line: CartLine)
    ensures GetCartCount([line]) == line.quantity && GetSubtotal([line]) == LineAmount(line)
  {
    AppendLine([], line);
    assert [] + [line] == [line];
  }

  /**
   * The total is not monotone in the cart: adding a line priced 1 to a
   * cart whose subtotal is exactly 1000 lowers the total from 1050 to 1001.
   */
  lemma TotalCanDropWhenAdding(p: CartProduct, q: CartProduct)
    requires p.price == 1000 && q.price == 1
    ensures var before := [CartLine(1, "s", p.id, 1, 0, Some(p))];
            var after := before + [CartLine(2, "s", q.id, 1, 0, Some(q))];
            GetTotal(before) == 1050 && GetTotal(after) == 1001
  {
    var before := [CartLine(1, "s", p.id, 1, 0, Some(p))];
    SingleLine(before[0]);
    AppendLine(before, CartLine(2, "s", q.id, 1, 0, Some(q)));
  }

  class CartStore {
    var items: seq<CartLine>
    var sessionId: string
    var isOpen: bool
    var isLoading: bool

    /** A new store; the session id is generated by the caller. */
    constructor (sessionId: string)
      ensures items == [] && this.sessionId == sessionId && !isOpen && !isLoading
    {
      items := [];
      this.sessionId := sessionId;
      isOpen := false;
      isLoading := false;
    }

    method OpenCart()
      modifies this`isOpen
      ensures isOpen
    {
      isOpen := true;
    }

    method CloseCart()
      modifies this`isOpen
      ensures !isOpen
    {
      isOpen := false;
    }

    method ToggleCart()
      modifies this`isOpen
      ensures isOpen == !old(isOpen)
    {
      isOpen := !isOpen;
    }

    /**
     * Replaces the lines with what the server returned (`None`: the
     * request failed, the lines stay); loading ends either way.
     */
    method FetchCart(fetched: Option<seq<CartLine>>)
      modifies this`items, this`isLoading
      ensures !isLoading
      ensures items == if fetched.Some? then fetched.value else old(items)
    {
      isLoading := true;
      if fetched.Some? {
        items := fetched.value;
      }
      isLoading := false;
    }

    /**
     * After the add request (`posted`: it succeeded) the store refetches
     * and opens the drawer; a failed add leaves lines and drawer alone.
     */
    method AddItem(posted: bool, fetched: Option<seq<CartLine>>)
      modifies this`items, this`isOpen, this`isLoading
      ensures !isLoading
      ensures posted ==> isOpen && items == if fetched.Some? then fetched.value else old(items)
      ensures !posted ==> isOpen == old(isOpen) && items == old(items)
    {
      isLoading := true;
      if posted {
        FetchCart(fetched);
        isOpen := true;
      }
      isLoading := false;
    }

    /** A quantity change: refetch after a successful request. */
    method UpdateQuantity(posted: bool, fetched: Option<seq<CartLine>>)
      modifies this`items, this`isLoading
      ensures !isLoading
      ensures posted ==> items == if fetched.Some? then fetched.value else old(items)
      ensures !posted ==> items == old(items)
    {
      isLoading := true;
      if posted {
        FetchCart(fetched);
      }
      isLoading := false;
    }

    /** A line removal: refetch after a successful request. */
    method RemoveItem(posted: bool, fetched: Option<seq<CartLine>>)
      modifies this`items, this`isLoading
      ensures !isLoading
      ensures posted ==> items == if fetched.Some? then fetched.value else old(items)
      ensures !posted ==> items == old(items)
    {
      isLoading := true;
      if posted {
        FetchCart(fetched);
      }
      isLoading := false;
    }

    /**
     * Empties the lines once the server has cleared the session, without
     * refetching: the cart then counts 0, costs 0 and totals the fee.
     */
    method ClearCart(posted: bool)
      modifies this`items, this`isLoading
      ensures !isLoading
      ensures posted ==> items == [] && GetCartCount(items) == 0 && GetTotal(items) == ShippingFee
      ensures !posted ==> items == old(items)
    {
      isLoading := true;
      if posted {
        items := [];
      }
      isLoading := false;
    }
  }

  /** Toggling the drawer twice leaves it as it was. */
  method ToggleTwice(store: CartStore)
    modifies store`isOpen
    ensures store.isOpen == old(store.isOpen)
  {
    store.ToggleCart();
    store.ToggleCart();
  }
}
