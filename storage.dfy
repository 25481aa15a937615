/**
 * The in-memory store of the storefront's server: category, product and
 * cart-line tables held in JavaScript `Map`s, each with an id counter.
 * Catalog queries are filters and finds over a table's values in its
 * iteration order; the cart mutators update the cart table in place.
 */
module Storage {
  import opened Wrappers
  import opened Seqs
  import opened JsMap
  import opened Schema
  import opened Text

  /** What identifies a cart line besides its id: its session and product. */
  function LineKey(x: CartItem): (string, int) {
    (x.sessionId, x.productId)
  }

  /** The cart holds at most one line per (session, product) pair. */
  ghost predicate OneLinePerProduct(lines: map<int, CartItem>) {
    forall a, b {:trigger LineKey(lines[a]), LineKey(lines[b])} ::
      a in lines && b in lines && LineKey(lines[a]) == LineKey(lines[b]) ==> a == b
  }

  /** The category table: keyed by category ids, every id at least 1 and below the counter. */
  ghost predicate CategoryTable(categories: OrderedMap<Category>, counter: int) {
    && categories.Valid() && 1 <= counter
    && (forall k :: k in categories.entries ==> categories.entries[k].id == k && 1 <= k < counter)
  }

  /** The product table: keyed by product ids, every id at least 1 and below the counter. */
  ghost predicate ProductTable(products: OrderedMap<Product>, counter: int) {
    && products.Valid() && 1 <= counter
    && (forall k :: k in products.entries ==> products.entries[k].id == k && 1 <= k < counter)
  }

  /** The three tables of the store, each well-formed. */
  ghost predicate Tables(categories: OrderedMap<Category>, products: OrderedMap<Product>,
                         cartItems: OrderedMap<CartItem>,
                         categoryCounter: int, productCounter: int, cartItemCounter: int) {
    && CategoryTable(categories, categoryCounter)
    && ProductTable(products, productCounter)
    && CartTable(cartItems, cartItemCounter)
  }

  /**
   * The cart table: keyed by line ids, every id at least 1 and below the
   * counter (so the counter is never a used id), one line per
   * (session, product).
   */
  ghost predicate CartTable(lines: OrderedMap<CartItem>, counter: int) {
    && lines.Valid() && 1 <= counter
    && (forall k :: k in lines.entries ==> lines.entries[k].id == k && 1 <= k < counter)
    && OneLinePerProduct(lines.entries)
  }

  /** A line for a new (session, product) pair, stored under the counter, keeps the table well-formed. */
  lemma CartTableInsert(lines: OrderedMap<CartItem>, counter: int, x: CartItem)
    requires CartTable(lines, counter) && x.id == counter
    requires forall k :: k in lines.entries ==>
               !(lines.entries[k].sessionId == x.sessionId && lines.entries[k].productId == x.productId)
    ensures counter !in lines.entries
    ensures CartTable(lines.Set(counter, x), counter + 1)
  {
  }

  /** Changing a stored line's quantity keeps the table well-formed. */
  lemma CartTableReplace(lines: OrderedMap<CartItem>, counter: int, id: int, quantity: int)
    requires CartTable(lines, counter) && id in lines.entries
    ensures CartTable(lines.Set(id, lines.entries[id].(quantity := quantity)), counter)
  {
    var updated := lines.entries[id := lines.entries[id].(quantity := quantity)];
    forall a, b | a in updated && b in updated && LineKey(updated[a]) == LineKey(updated[b])
      ensures a == b
    {
      assert LineKey(updated[a]) == LineKey(lines.entries[a]);
      assert LineKey(updated[b]) == LineKey(lines.entries[b]);
    }
  }

  /** Dropping lines, and changing nothing else, keeps the table well-formed. */
  lemma CartTableShrink(lines: OrderedMap<CartItem>, smaller: OrderedMap<CartItem>, counter: int)
    requires CartTable(lines, counter) && smaller.Valid()
    requires forall k :: k in smaller.entries ==> k in lines.entries && smaller.entries[k] == lines.entries[k]
    ensures CartTable(smaller, counter)
  {
  }

  /** Does a search term (already lower-cased) hit this product? */
  predicate MatchesSearch(p: Product, term: string) {
    || Includes(ToLower(p.name), term)
    || (p.description.Some? && Includes(ToLower(p.description.value), term))
  }

  class MemStorage {
    var categories: OrderedMap<Category>
    var products: OrderedMap<Product>
    var cartItems: OrderedMap<CartItem>
    var categoryCurrentId: int
    var productCurrentId: int
    var cartItemCurrentId: int

    /**
     * Every table is keyed by its records' ids, every id lies below its
     * table's counter (so the counter is never a used id), and the cart has
     * one line per (session, product).
     */
    ghost predicate Valid()
      reads this
    {
      Tables(categories, products, cartItems, categoryCurrentId, productCurrentId, cartItemCurrentId)
    }

    /** Empty tables, every counter at 1. */
    constructor ()
      ensures Valid()
      ensures categories == Empty() && products == Empty() && cartItems == Empty()
      ensures categoryCurrentId == 1 && productCurrentId == 1 && cartItemCurrentId == 1
    {
      categories := Empty();
      products := Empty();
      cartItems := Empty();
      categoryCurrentId := 1;
      productCurrentId := 1;
      cartItemCurrentId := 1;
    }

    // ----- Categories

    /** Every stored category, in the order they were first stored. */
    function GetAllCategories(): (r: seq<Category>)
      requires Valid()
      reads this
      ensures |r| == |categories.order|
      ensures forall i :: 0 <= i < |r| ==> r[i].id == categories.order[i]
      ensures forall c :: c in r <==> c in categories.entries.Values
    {
      categories.Values()
    }

    function GetCategoryById(id: int): (r: Option<Category>)
      requires Valid()
      reads this
      ensures r.Some? <==> id in categories.entries
      ensures r.Some? ==> r.value == categories.entries[id] && r.value.id == id
    {
      categories.Get(id)
    }

    function GetCategoryBySlug(slug: string): (r: Option<Category>)
      requires Valid()
      reads this
      ensures r.Some? ==> r.value.slug == slug && r.value.id in categories.entries
                          && categories.entries[r.value.id] == r.value
      ensures r.None? <==> forall k :: k in categories.entries ==> categories.entries[k].slug != slug
      ensures r.Some? ==> exists i :: 0 <= i < |categories.Values()| && categories.Values()[i] == r.value
                            && forall j :: 0 <= j < i ==> categories.Values()[j].slug != slug
    {
      FindPosition(categories.Values(), (c: Category) => c.slug == slug);
      Find(categories.Values(), (c: Category) => c.slug == slug)
    }

    /** Stores the category under the next id and returns it with that id. */
    method CreateCategory(c: Category) returns (r: Category)
      requires Valid()
      modifies this`categories, this`categoryCurrentId
      ensures Valid()
      ensures r == c.(id := old(categoryCurrentId)) && r.id !in old(categories.entries)
      ensures categoryCurrentId == old(categoryCurrentId) + 1
      ensures categories == old(categories).Set(r.id, r)
    {
      var id := categoryCurrentId;
      categoryCurrentId := categoryCurrentId + 1;
      r := c.(id := id);
      categories := categories.Set(id, r);
    }

    // ----- Products

    /** Every stored product, in the order they were first stored. */
    function GetAllProducts(): (r: seq<Product>)
      requires Valid()
      reads this
      ensures |r| == |products.order|
      ensures forall i :: 0 <= i < |r| ==> r[i].id == products.order[i]
      ensures forall p :: p in r <==> p in products.entries.Values
    {
      products.Values()
    }

    function GetProductById(id: int): (r: Option<Product>)
      requires Valid()
      reads this
      ensures r.Some? <==> id in products.entries
      ensures r.Some? ==> r.value == products.entries[id] && r.value.id == id
    {
      products.Get(id)
    }

    function GetProductBySlug(slug: string): (r: Option<Product>)
      requires Valid()
      reads this
      ensures r.Some? ==> r.value.slug == slug && r.value.id in products.entries
                          && products.entries[r.value.id] == r.value
      ensures r.None? <==> forall k :: k in products.entries ==> products.entries[k].slug != slug
      ensures r.Some? ==> exists i :: 0 <= i < |products.Values()| && products.Values()[i] == r.value
                            && forall j :: 0 <= j < i ==> products.Values()[j].slug != slug
    {
      FindPosition(products.Values(), (p: Product) => p.slug == slug);
      var r := Find(products.Values(), (p: Product) => p.slug == slug);
      assert r.Some? ==> r.value.id in products.entries by {
        if r.Some? {
          var k :| k in products.entries && products.entries[k] == r.value;
        }
      }
      r
    }

    function GetProductsByCategory(categoryId: int): (r: seq<Product>)
      requires Valid()
      reads this
      ensures IsSubseq(r, products.Values())
      ensures forall p :: p in r ==> p in products.Values() && p.categoryId == categoryId
      ensures forall p :: p in products.Values() && p.categoryId == categoryId ==> p in r
    {
      Filter(products.Values(), (p: Product) => p.categoryId == categoryId)
    }

    /** The products of the category with this slug; none for an unknown slug. */
    function GetProductsByCategorySlug(slug: string): (r: seq<Product>)
      requires Valid()
      reads this
      ensures (forall k :: k in categories.entries ==> categories.entries[k].slug != slug) ==> r == []
      ensures IsSubseq(r, products.Values())
      ensures forall p :: p in r ==>
                (exists k :: k in categories.entries && categories.entries[k].slug == slug && p.categoryId == k)
      ensures GetCategoryBySlug(slug).Some? ==>
                forall p :: p in products.Values() && p.categoryId == GetCategoryBySlug(slug).value.id ==> p in r
      ensures GetCategoryBySlug(slug).Some? ==>
                forall p :: p in r ==> p.categoryId == GetCategoryBySlug(slug).value.id
    {
      match GetCategoryBySlug(slug)
      case None =>
        assert IsSubseq([], products.Values());
        []
      case Some(category) => GetProductsByCategory(category.id)
    }

    /**
     * The products whose name or description contains the query, ignoring
     * case, in table order.
     */
    function SearchProducts(query: string): (r: seq<Product>)
      requires Valid()
      reads this
      ensures IsSubseq(r, products.Values())
      ensures forall p :: p in r ==> p in products.Values() && MatchesSearch(p, ToLower(query))
      ensures forall p :: p in products.Values() && MatchesSearch(p, ToLower(query)) ==> p in r
    {
      var searchTerm := ToLower(query);
      Filter(products.Values(), (p: Product) => MatchesSearch(p, searchTerm))
    }

    /** A query finds the same products whatever the case of its letters. */
    lemma SearchIgnoresQueryCase(query: string)
      requires Valid()
      ensures SearchProducts(query) == SearchProducts(ToLower(query))
    {
      ToLowerIdempotent(query);
    }

    /** An empty query finds every product, in table order. */
    lemma EmptyQueryFindsAll()
      requires Valid()
      ensures SearchProducts("") == products.Values()
    {
      assert ToLower("") == "";
      forall p | p in products.Values()
        ensures MatchesSearch(p, "")
      {
        IncludesTrivial(ToLower(p.name));
      }
      FilterKeepsAll(products.Values(), (p: Product) => MatchesSearch(p, ""));
    }

    function GetFeaturedProducts(): (r: seq<Product>)
      requires Valid()
      reads this
      ensures IsSubseq(r, products.Values())
      ensures forall p :: p in r ==> p in products.Values() && p.isFeatured
      ensures forall p :: p in products.Values() && p.isFeatured ==> p in r
    {
      Filter(products.Values(), (p: Product) => p.isFeatured)
    }

    function GetTrendingProducts(): (r: seq<Product>)
      requires Valid()
      reads this
      ensures IsSubseq(r, products.Values())
      ensures forall p :: p in r ==> p in products.Values() && p.isTrending
      ensures forall p :: p in products.Values() && p.isTrending ==> p in r
    {
      Filter(products.Values(), (p: Product) => p.isTrending)
    }

    /**
     * Stores the product under the next id. When no stored product had its
     * slug, looking the slug up finds the new product.
     */
    method CreateProduct(p: Product) returns (r: Product)
      requires Valid()
      modifies this`products, this`productCurrentId
      ensures Valid()
      ensures r == p.(id := old(productCurrentId)) && r.id !in old(products.entries)
      ensures productCurrentId == old(productCurrentId) + 1
      ensures products == old(products).Set(r.id, r)
      ensures (forall k :: k in old(products.entries) ==> old(products.entries)[k].slug != p.slug)
                ==> GetProductBySlug(p.slug) == Some(r)
    {
      var id := productCurrentId;
      productCurrentId := productCurrentId + 1;
      r := p.(id := id);
      products := products.Set(id, r);
      if forall k :: k in old(products.entries) ==> old(products.entries)[k].slug != p.slug {
        OnlyProductWithSlug(p.slug, r);
      }
    }

    /** A slug that only one stored product carries finds that product. */
    lemma OnlyProductWithSlug(slug: string, x: Product)
      requires Valid()
      requires x.id in products.entries && products.entries[x.id] == x && x.slug == slug
      requires forall k :: k in products.entries && products.entries[k].slug == slug ==> k == x.id
      ensures GetProductBySlug(slug) == Some(x)
    {
    }

    // ----- Cart

    function GetCartItemsBySessionId(sessionId: string): (r: seq<CartItem>)
      requires Valid()
      reads this
      ensures IsSubseq(r, cartItems.Values())
      ensures forall x :: x in r ==> x in cartItems.Values() && x.sessionId == sessionId
      ensures forall x :: x in cartItems.Values() && x.sessionId == sessionId ==> x in r
    {
      Filter(cartItems.Values(), (x: CartItem) => x.sessionId == sessionId)
    }

    /** The session's line for this product, if it has one. */
    function GetCartItemWithProduct(sessionId: string, productId: int): (r: Option<CartItem>)
      requires Valid()
      reads this
      ensures r.Some? ==> r.value.id in cartItems.entries && cartItems.entries[r.value.id] == r.value
                          && r.value.sessionId == sessionId && r.value.productId == productId
      ensures r.None? <==> forall k :: k in cartItems.entries ==>
                !(cartItems.entries[k].sessionId == sessionId && cartItems.entries[k].productId == productId)
    {
      var r := Find(cartItems.Values(),
                    (x: CartItem) => x.sessionId == sessionId && x.productId == productId);
      assert r.Some? ==> r.value.id in cartItems.entries by {
        if r.Some? {
          var k :| k in cartItems.entries && cartItems.entries[k] == r.value;
        }
      }
      r
    }

    /**
     * Sets a line's quantity. An unknown id changes nothing; a quantity of
     * zero or less deletes the line; both answer None.
     */
    method UpdateCartItemQuantity(id: int, quantity: int) returns (r: Option<CartItem>)
      requires Valid()
      modifies this`cartItems
      ensures Valid()
      ensures id !in old(cartItems.entries) ==> r == None && cartItems == old(cartItems)
      ensures id in old(cartItems.entries) && quantity <= 0 ==>
                r == None && cartItems == old(cartItems).Delete(id)
      ensures id in old(cartItems.entries) && quantity > 0 ==>
                r == Some(old(cartItems.entries)[id].(quantity := quantity))
                && cartItems == old(cartItems).Set(id, r.value)
    {
      var cartItem := cartItems.Get(id);
      if cartItem.None? {
        return None;
      }
      if quantity <= 0 {
        CartTableShrink(cartItems, cartItems.Delete(id), cartItemCurrentId);
        cartItems := cartItems.Delete(id);
        return None;
      }
      var updatedItem := cartItem.value.(quantity := quantity);
      CartTableReplace(cartItems, cartItemCurrentId, id, quantity);
      cartItems := cartItems.Set(id, updatedItem);
      r := Some(updatedItem);
    }

    /**
     * Adds to the session's line for the product if there is one (keeping
     * its id and creation time, and deleting it if the new quantity is not
     * positive); otherwise stores a new line under the next id. The
     * quantity is not checked to be positive on either path.
     */
    method AddItemToCart(item: NewCartItem, now: int) returns (r: Option<CartItem>)
      requires Valid()
      modifies this`cartItems, this`cartItemCurrentId
      ensures Valid()
      ensures var existing := old(GetCartItemWithProduct(item.sessionId, item.productId));
              if existing.Some? then
                var sum := existing.value.quantity + item.quantity;
                && cartItemCurrentId == old(cartItemCurrentId)
                && if sum > 0 then
                     r == Some(existing.value.(quantity := sum))
                     && cartItems == old(cartItems).Set(existing.value.id, r.value)
                   else
                     r == None && cartItems == old(cartItems).Delete(existing.value.id)
              else
                var id := old(cartItemCurrentId);
                && id !in old(cartItems.entries)
                && r == Some(CartItem(id, item.sessionId, item.productId, item.quantity, now))
                && cartItems == old(cartItems).Set(id, r.value)
                && cartItemCurrentId == id + 1
    {
      var existingItem := GetCartItemWithProduct(item.sessionId, item.productId);
      if existingItem.Some? {
        r := UpdateCartItemQuantity(existingItem.value.id, existingItem.value.quantity + item.quantity);
        return;
      }
      var cartItem := StoreNewLine(item, now);
      r := Some(cartItem);
    }

    /**
     * The new-line path of `AddItemToCart`: stores a line for a pair the
     * cart has no line for, under the next id.
     */
    method StoreNewLine(item: NewCartItem, now: int) returns (cartItem: CartItem)
      requires Valid()
      requires GetCartItemWithProduct(item.sessionId, item.productId).None?
      modifies this`cartItems, this`cartItemCurrentId
      ensures Valid()
      ensures cartItem == CartItem(old(cartItemCurrentId), item.sessionId, item.productId, item.quantity, now)
      ensures cartItem.id !in old(cartItems.entries)
      ensures cartItems == old(cartItems).Set(cartItem.id, cartItem)
      ensures cartItemCurrentId == old(cartItemCurrentId) + 1
    {
      var id := cartItemCurrentId;
      cartItemCurrentId := cartItemCurrentId + 1;
      cartItem := CartItem(id, item.sessionId, item.productId, item.quantity, now);
      CartTableInsert(cartItems, id, cartItem);
      cartItems := cartItems.Set(id, cartItem);
    }

    /** Deletes the line if it exists; an absent id is not an error. */
    method RemoveCartItem(id: int)
      requires Valid()
      modifies this`cartItems
      ensures Valid()
      ensures cartItems == old(cartItems).Delete(id)
      ensures id !in old(cartItems.entries) ==> cartItems == old(cartItems)
    {
      CartTableShrink(cartItems, cartItems.Delete(id), cartItemCurrentId);
      cartItems := cartItems.Delete(id);
    }

    /**
     * Collects the ids of the session's lines, then deletes them one by
     * one: afterwards the session has no line and every other line is as
     * it was, in the order it was.
     */
    method ClearCart(sessionId: string)
      requires Valid()
      modifies this`cartItems
      ensures Valid()
      ensures forall k :: k in cartItems.entries <==>
                k in old(cartItems.entries) && old(cartItems.entries)[k].sessionId != sessionId
      ensures forall k :: k in cartItems.entries ==> cartItems.entries[k] == old(cartItems.entries)[k]
      ensures IsSubseq(cartItems.order, old(cartItems.order))
      ensures GetCartItemsBySessionId(sessionId) == []
    {
      var itemsToRemove := GetCartItemsBySessionId(sessionId);
      var ids := Ids(itemsToRemove);
      SessionIds(sessionId, itemsToRemove, ids);
      ghost var before := cartItems;
      DeleteEach(ids);
      CartTableShrink(before, cartItems, cartItemCurrentId);
      NoLinesLeft(sessionId);
    }

    /** `ids.forEach(id => this.cartItems.delete(id))`. */
    method DeleteEach(ids: seq<int>)
      requires cartItems.Valid()
      modifies this`cartItems
      ensures cartItems.Valid()
      ensures forall k :: k in cartItems.entries <==> k in old(cartItems.entries) && k !in ids
      ensures forall k :: k in cartItems.entries ==> cartItems.entries[k] == old(cartItems.entries)[k]
      ensures IsSubseq(cartItems.order, old(cartItems.order))
    {
      SubseqRefl(cartItems.order);
      var i := 0;
      while i < |ids|
        invariant 0 <= i <= |ids|
        invariant cartItems.Valid()
        invariant forall k :: k in cartItems.entries <==> k in old(cartItems.entries) && k !in ids[..i]
        invariant forall k :: k in cartItems.entries ==> cartItems.entries[k] == old(cartItems.entries)[k]
        invariant IsSubseq(cartItems.order, old(cartItems.order))
      {
        ghost var before := cartItems.order;
        cartItems := cartItems.Delete(ids[i]);
        SubseqTrans(cartItems.order, before, old(cartItems.order));
        assert ids[..i + 1] == ids[..i] + [ids[i]];
        i := i + 1;
      }
      assert ids[..i] == ids;
    }

    /** With no line of the session stored, its cart reads as empty. */
    lemma NoLinesLeft(sessionId: string)
      requires Valid()
      requires forall k :: k in cartItems.entries ==> cartItems.entries[k].sessionId != sessionId
      ensures GetCartItemsBySessionId(sessionId) == []
    {
      var rest := GetCartItemsBySessionId(sessionId);
      if rest != [] {
        assert false;
      }
    }

    /** The ids of the session's lines are exactly the keys of its lines. */
    lemma SessionIds(sessionId: string, items: seq<CartItem>, ids: seq<int>)
      requires Valid()
      requires items == GetCartItemsBySessionId(sessionId)
      requires |ids| == |items| && forall i :: 0 <= i < |ids| ==> ids[i] == items[i].id
      ensures forall k :: k in ids <==> k in cartItems.entries && cartItems.entries[k].sessionId == sessionId
    {
      forall k | k in ids
        ensures k in cartItems.entries && cartItems.entries[k].sessionId == sessionId
      {
        var i :| 0 <= i < |ids| && ids[i] == k;
        assert items[i] in items;
        var j :| j in cartItems.entries && cartItems.entries[j] == items[i];
      }
      forall k | k in cartItems.entries && cartItems.entries[k].sessionId == sessionId
        ensures k in ids
      {
        var x := cartItems.entries[k];
        assert x in items;
        var i :| 0 <= i < |items| && items[i] == x;
        assert ids[i] == k;
      }
    }
  }

  /** `items.map(item => item.id)`. */
  function Ids(items: seq<CartItem>): seq<int>
  {
    seq(|items|, i requires 0 <= i < |items| => items[i].id)
  }

  /**
   * Adding a product twice to a fresh store leaves the session one line,
   * holding the sum of the two quantities and the first creation time.
   */
  method AddTwiceKeepsOneLine(sessionId: string, productId: int, q1: int, q2: int, t1: int, t2: int)
    returns (lines: seq<CartItem>)
    requires q1 + q2 > 0
    ensures |lines| == 1
    ensures lines[0].productId == productId && lines[0].quantity == q1 + q2 && lines[0].createdAt == t1
  {
    var store := new MemStorage();
    var first := store.AddItemToCart(NewCartItem(sessionId, productId, q1), t1);
    var line := CartItem(1, sessionId, productId, q1, t1);
    assert store.cartItems == Empty().Set(1, line);
    assert store.GetCartItemWithProduct(sessionId, productId) == Some(line);
    var second := store.AddItemToCart(NewCartItem(sessionId, productId, q2), t2);
    var merged := line.(quantity := q1 + q2);
    OneLine(line, merged);
    assert store.cartItems.Values() == [merged];
    lines := store.GetCartItemsBySessionId(sessionId);
    assert lines == Filter([merged], (x: CartItem) => x.sessionId == sessionId);
  }

  /** A cart whose one line was set and then replaced holds the replacement alone. */
  lemma OneLine(first: CartItem, last: CartItem)
    ensures Empty().Set(1, first).Values() == [first]
    ensures Empty().Set(1, first).Set(1, last) == Empty().Set(1, last)
    ensures Empty().Set(1, last).Values() == [last]
  {
  }

  /** Setting a line's quantity to zero takes it out of the session's cart. */
  method ZeroQuantityRemovesLine(sessionId: string, productId: int, q: int, t: int)
    returns (updated: Option<CartItem>, lines: seq<CartItem>)
    ensures updated == None && lines == []
  {
    var store := new MemStorage();
    var added := store.AddItemToCart(NewCartItem(sessionId, productId, q), t);
    updated := store.UpdateCartItemQuantity(added.value.id, 0);
    lines := store.GetCartItemsBySessionId(sessionId);
    assert store.cartItems.order == [];
  }
}
