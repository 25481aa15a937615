# Festival storefront: a verified model of its core logic

This project models, in Dafny, the parts of a small festival-themed
storefront that hold self-contained logic:

- the server's in-memory store `MemStorage` (`server/storage.ts`): category,
  product and cart-line tables kept in JavaScript `Map`s with id counters;
  catalog lookups by id, slug, category and search term; and the cart
  mutators that add (merging into the session's existing line for the
  product), update, remove and clear lines;
- the browser cart store (`client/src/lib/cart-store.ts`): the item count,
  subtotal, shipping fee and total derived from the fetched lines, the
  drawer's open flag and the local effect of each cart action;
- the special-offer countdown tick (`client/src/components/home/special-offer.tsx`);
- the product list page's filters (`client/src/pages/products.tsx`): the
  price / category / sale pipeline, toggling a category, toggling the sale
  flag, clearing, the price slider and the de-duplicated category ids;
- the product page (`client/src/pages/product-detail.tsx`): the guarded
  quantity selector and the split of a rating into full, half and empty stars.

Modules:

| file | module | contents |
|---|---|---|
| `wrappers.dfy` | `Wrappers` | `Option` |
| `seqs.dfy` | `Seqs` | `filter`, `find` and `reduce` on sequences; subsequences; sums |
| `js_map.dfy` | `JsMap` | a `Map` with its insertion order (`get`, `set`, `delete`, `values`) |
| `schema.dfy` | `Schema` | the table records |
| `text.dfy` | `Text` | `toLowerCase` and `includes` |
| `storage.dfy` | `Storage` | class `MemStorage` |
| `cart_store.dfy` | `CartStore` | cart totals and class `CartStore` |
| `countdown.dfy` | `Countdown` | the countdown tick |
| `product_filters.dfy` | `ProductFilters` | the product list filters |
| `product_detail.dfy` | `ProductDetail` | quantity selector (class `QuantitySelector`) and star split |

Representation choices:

- A `Map` is an `OrderedMap`: its entries plus the order its keys were
  first set in. `Array.from(map.values())` walks that order, so `find`
  returns the first match in insertion order, and `filter` keeps that order.
  Setting an existing key keeps its place. Deleting removes it.
- Decimal prices are whole rupees (every seeded price is whole). A rating
  (`decimal(3,1)`) is an integer count of tenths of a star.
- Timestamps (`new Date()`) are a parameter `now`. The outcome of every
  network request in the cart store is a parameter: `posted` says whether
  the request succeeded, and `fetched` is the refetched lines, or `None`
  when the refetch failed.
- A nullable column is an `Option`, except a cart line's `createdAt`,
  which the store always sets and which is therefore a plain `int`. A nullable boolean (`isFeatured`,
  `isTrending`) is a `bool`, with null read as false, which is how
  `filter` treats it.

Behaviours of the code that the model keeps:

- `addItemToCart` accepts any quantity, including zero and negative ones.
- A merge whose new quantity is 0 or less deletes the line. It then
  returns nothing, despite the declared return type, so
  `Storage.MemStorage.AddItemToCart` returns an `Option`.
- Nothing keeps slugs unique. A slug lookup returns the first category or
  product, in table order, stored with that slug.

## Model

| member | source | states |
|---|---|---|
| `JsMap.GetAfterUpdate` | server/storage.ts:110-112 | `map.get` after `map.set(k, v)` gives `v` for `k`, after `map.delete(k)` nothing for `k`, and after either the old value for every other key |
| `JsMap.OrderedMap.Set` | server/storage.ts:195 | `map.set(k, v)`: the entry is replaced; a new key goes to the end of the iteration order, an existing key keeps its place; a well-formed map stays well-formed |
| `JsMap.OrderedMap.Delete` | server/storage.ts:205 | `map.delete(k)`: the key leaves the entries and the order, the remaining keys keep their relative order, and deleting an absent key changes nothing |
| `JsMap.OrderedMap.Values` | server/storage.ts:93 | `Array.from(map.values())`: one value per key, in iteration order, and every stored value appears |
| `JsMap.Empty` | server/storage.ts:53-55 | `new Map()` is well-formed and empty |
| `JsMap.DeleteIdempotent` | server/storage.ts:215-217 | deleting the same key twice is the same as deleting it once |
| `Seqs.Filter` | server/storage.ts:121-123 | `filter` returns a subsequence of its input, in its order, whose members are the elements of the input the predicate accepts |
| `Seqs.FilterCounts` | server/storage.ts:121-123 | `filter` keeps every copy of an accepted element and no copy of a rejected one |
| `Seqs.FilterFilter` | client/src/pages/products.tsx:52-70 | two filters in a row equal one filter by both tests (the chained stages of the product list) |
| `Seqs.FilterSame` | client/src/pages/products.tsx:52-70 | tests that agree on every element give the same filter (a skipped stage) |
| `Seqs.FilterNoDups` | client/src/pages/products.tsx:113-115 | filtering a list without duplicates gives a list without duplicates |
| `Seqs.FilterKeepsAll` | client/src/pages/products.tsx:113-115 | a filter that accepts every element returns its input unchanged |
| `Seqs.FilterAppend` | client/src/pages/products.tsx:113-115 | filtering a concatenation is the concatenation of the filtered parts |
| `Seqs.Find` | server/storage.ts:115-117 | `find` returns nothing exactly when no element passes, and otherwise an element that passes |
| `Seqs.FindPosition` | server/storage.ts:115-117 | what `find` returns stands at a position before which no element passes |
| `Seqs.FindIsFirst` | server/storage.ts:115-117 | what `find` returns is the earliest element that passes |
| `Seqs.FindUnique` | server/storage.ts:168-170 | when only one element passes, `find` returns it |
| `Seqs.ReduceIsSum` | client/src/lib/cart-store.ts:140 | a `reduce` whose step adds `f` of each element computes the sum of `f` over the elements |
| `Seqs.SumAppend` | client/src/lib/cart-store.ts:140 | a sum over a concatenation is the sum of the parts |
| `Seqs.SumNonNegative` | client/src/lib/cart-store.ts:143-148 | a sum of non-negative terms is non-negative |
| `Seqs.SubseqRefl` | client/src/pages/products.tsx:52 | every list is a subsequence of itself (the filter stages that are skipped) |
| `Seqs.SubseqTrans` | client/src/pages/products.tsx:52-70 | a subsequence of a subsequence is a subsequence (chained filter stages) |
| `Seqs.SubseqSnoc` | client/src/pages/products.tsx:76-78 | appending an element to the whole, or to both lists, keeps a subsequence |
| `Seqs.SubseqMembers` | client/src/pages/products.tsx:52-70 | every element of a subsequence is an element of the whole |
| `Text.ToLower` | server/storage.ts:133 | `toLowerCase` keeps the length, lower-cases each letter and leaves no upper-case letter |
| `Text.ToLowerIdempotent` | server/storage.ts:133-137 | lower-casing twice is lower-casing once |
| `Text.IncludesTrivial` | server/storage.ts:136-137 | every string includes the empty string and itself |
| `Storage.MemStorage.constructor` | server/storage.ts:51-63 | empty tables, every id counter at 1, the store invariant holds |
| `Storage.MemStorage.GetAllCategories` | server/storage.ts:84-86 | every stored category once, in the order the categories were stored |
| `Storage.MemStorage.GetCategoryById` | server/storage.ts:88-90 | the category stored under the id, if any, and its id is that id |
| `Storage.MemStorage.GetCategoryBySlug` | server/storage.ts:92-96 | the first category in table order with that slug; nothing exactly when no stored category has the slug |
| `Storage.MemStorage.CreateCategory` | server/storage.ts:98-103 | the category is stored under the current counter value, which was unused, and the counter goes up by one; the store invariant is kept |
| `Storage.MemStorage.GetAllProducts` | server/storage.ts:106-108 | every stored product once, in the order the products were stored |
| `Storage.MemStorage.GetProductById` | server/storage.ts:110-112 | the product stored under the id, if any |
| `Storage.MemStorage.GetProductBySlug` | server/storage.ts:114-118 | the first product in table order with that slug; nothing exactly when no stored product has the slug |
| `Storage.MemStorage.GetProductsByCategory` | server/storage.ts:120-124 | exactly the stored products of that category, in table order |
| `Storage.MemStorage.GetProductsByCategorySlug` | server/storage.ts:126-130 | an unknown slug gives `[]`; otherwise only and all the products of the category found, the first in table order with that slug |
| `Storage.MemStorage.SearchProducts` | server/storage.ts:132-139 | exactly the products whose lower-cased name, or lower-cased description when there is one, contains the lower-cased query, in table order |
| `Storage.MemStorage.SearchIgnoresQueryCase` | server/storage.ts:133 | a query and its lower-cased form find the same products |
| `Storage.MemStorage.EmptyQueryFindsAll` | server/storage.ts:132-139 | an empty query finds every stored product, in table order |
| `Storage.MemStorage.GetFeaturedProducts` | server/storage.ts:141-145 | exactly the featured products, in table order |
| `Storage.MemStorage.GetTrendingProducts` | server/storage.ts:147-151 | exactly the trending products, in table order |
| `Storage.MemStorage.CreateProduct` | server/storage.ts:153-158 | the product is stored under the current counter value, which was unused, and the counter goes up by one; when its slug was new, looking the slug up finds it |
| `Storage.MemStorage.OnlyProductWithSlug` | server/storage.ts:114-118 | a slug that only one stored product carries finds that product |
| `Storage.MemStorage.GetCartItemsBySessionId` | server/storage.ts:161-165 | exactly the session's lines, in table order |
| `Storage.MemStorage.GetCartItemWithProduct` | server/storage.ts:167-171 | a stored line of that session and product; nothing exactly when there is none |
| `Storage.MemStorage.UpdateCartItemQuantity` | server/storage.ts:199-213 | unknown id: nothing changes and nothing is returned; quantity of 0 or less: the line is deleted and nothing is returned; otherwise only that line's quantity changes, in place, and the updated line is returned; the store invariant (one line per session and product, ids below the counter) is kept |
| `Storage.MemStorage.AddItemToCart` | server/storage.ts:173-197 | with a line for the session and product: that line's quantity becomes the old plus the added one, keeping its id and creation time, no id is used up, and a sum of 0 or less deletes the line; without one: one new line under the current counter value, which was unused, and the counter goes up by one; the store invariant is kept |
| `Storage.MemStorage.StoreNewLine` | server/storage.ts:188-196 | for a pair without a line, one new line under the current counter value, which was unused; the counter goes up by one and the store invariant is kept |
| `Storage.CartTableInsert` | server/storage.ts:188-196 | a line for a new (session, product) pair stored under the counter keeps the cart table keyed by id, below the counter and with one line per pair |
| `Storage.CartTableReplace` | server/storage.ts:209-212 | changing a stored line's quantity keeps the cart table well-formed, one line per pair included |
| `Storage.CartTableShrink` | server/storage.ts:215-225 | dropping lines and changing nothing else keeps the cart table well-formed |
| `Storage.OneLine` | server/storage.ts:209-211 | setting the only line again replaces it in place, and the table's values are that line alone |
| `Storage.MemStorage.RemoveCartItem` | server/storage.ts:215-217 | the line is deleted and the store invariant is kept; an absent id changes nothing and is not an error |
| `Storage.MemStorage.ClearCart` | server/storage.ts:219-225 | afterwards the session has no line; every line of another session is still there, unchanged and in the same order; the store invariant is kept |
| `Storage.MemStorage.DeleteEach` | server/storage.ts:224 | deleting each listed id in turn leaves exactly the unlisted lines, unchanged, in their order |
| `Storage.MemStorage.NoLinesLeft` | server/storage.ts:161-165 | with no stored line of the session, its cart reads as empty |
| `Storage.MemStorage.SessionIds` | server/storage.ts:220-222 | the ids collected by `clearCart` are exactly the keys of the session's lines |
| `Storage.AddTwiceKeepsOneLine` | server/storage.ts:173-197 | adding a product twice to a new store leaves the session one line holding the sum of the quantities and the first creation time |
| `Storage.ZeroQuantityRemovesLine` | server/storage.ts:199-207 | setting a new line's quantity to 0 answers nothing and leaves the session's cart empty |
| `CartStore.GetCartCount` | client/src/lib/cart-store.ts:139-141 | the count is the sum of the lines' quantities |
| `CartStore.GetSubtotal` | client/src/lib/cart-store.ts:143-148 | the subtotal is the sum of price times quantity over the lines with a product; a line without one adds 0 |
| `CartStore.ShippingAndTotal` | client/src/lib/cart-store.ts:150-160 | shipping is 0 or 50, 0 exactly when the subtotal is above 1000, so exactly 1000 still pays 50; total is subtotal plus shipping, so total minus subtotal is 0 or 50 and total is at least the subtotal |
| `CartStore.AppendLine` | client/src/lib/cart-store.ts:139-148 | one more line adds its quantity to the count and its amount to the subtotal |
| `CartStore.TotalsNonNegative` | client/src/lib/cart-store.ts:139-160 | with non-negative prices and quantities, count, subtotal and total are non-negative |
| `CartStore.EmptyCartTotals` | client/src/lib/cart-store.ts:139-160 | an empty cart counts 0, costs 0 and totals the 50 fee |
| `CartStore.SingleLine` | client/src/lib/cart-store.ts:139-148 | a one-line cart counts that line's quantity and costs its amount |
| `CartStore.PricingExamples` | client/src/lib/cart-store.ts:143-160 | one article at 600 twice totals 1200 with free shipping; one at 100 once totals 150 |
| `CartStore.TotalCanDropWhenAdding` | client/src/lib/cart-store.ts:150-160 | adding a line priced 1 to a subtotal of exactly 1000 lowers the total from 1050 to 1001 |
| `CartStore.CartStore.constructor` | client/src/lib/cart-store.ts:53-56 | a new store has no lines, the given session id, a closed drawer and is not loading |
| `CartStore.CartStore.OpenCart` | client/src/lib/cart-store.ts:59 | the drawer is open |
| `CartStore.CartStore.CloseCart` | client/src/lib/cart-store.ts:60 | the drawer is closed |
| `CartStore.CartStore.ToggleCart` | client/src/lib/cart-store.ts:61 | the drawer's flag is flipped |
| `CartStore.ToggleTwice` | client/src/lib/cart-store.ts:61 | toggling twice leaves the drawer as it was |
| `CartStore.CartStore.FetchCart` | client/src/lib/cart-store.ts:64-76 | the lines become the fetched ones, or stay when the fetch failed; loading ends either way |
| `CartStore.CartStore.AddItem` | client/src/lib/cart-store.ts:78-95 | after a successful add the lines are refetched and the drawer opens; a failed add changes neither; loading ends either way |
| `CartStore.CartStore.UpdateQuantity` | client/src/lib/cart-store.ts:97-109 | the lines are refetched after a successful request and kept otherwise; loading ends either way |
| `CartStore.CartStore.RemoveItem` | client/src/lib/cart-store.ts:111-123 | the lines are refetched after a successful request and kept otherwise; loading ends either way |
| `CartStore.CartStore.ClearCart` | client/src/lib/cart-store.ts:125-136 | after a successful request the lines are emptied without a refetch, so the count is 0 and the total is the 50 fee; a failed request keeps them; loading ends either way |
| `Countdown.Tick` | client/src/components/home/special-offer.tsx:23-51 | a tick keeps a state in range, takes exactly one second off any non-negative non-zero state, and restarts zero at 2d 14h 36m 51s |
| `Countdown.TickSecondsOnly` | client/src/components/home/special-offer.tsx:26-27 | with seconds left, only the seconds go down by one |
| `Countdown.TickBorrows` | client/src/components/home/special-offer.tsx:28-39 | at zero seconds the seconds become 59 and the tick borrows from the first positive unit among minutes, hours and days, setting the units below it to 59 or 23 |
| `Countdown.TickStep` | client/src/components/home/special-offer.tsx:23-51 | an in-range non-zero state ticks to an in-range state one second shorter |
| `Countdown.OnlyZeroIsEmpty` | client/src/components/home/special-offer.tsx:40-46 | in range, only the all-zero state shows no time left |
| `Countdown.TicksCountDown` | client/src/components/home/special-offer.tsx:22-51 | from an in-range state, each tick until zero takes off one second and stays in range |
| `Countdown.ReachesZero` | client/src/components/home/special-offer.tsx:22-51 | an in-range countdown reaches zero after as many ticks as it shows seconds |
| `Countdown.Cycles` | client/src/components/home/special-offer.tsx:13-18 | the start shows 225411 seconds, and the countdown is back at its start after 225412 ticks |
| `ProductFilters.InitialPanel` | client/src/pages/products.tsx:38-47 | the page opens with the band 0 to 2000, no category selected, the slider at 0 to 2000 and the sale flag from the address |
| `ProductFilters.ApplyFilters` | client/src/pages/products.tsx:49-73 | before the products arrive the shown list stays; afterwards it is one filter of the products, keeping each product, with all its copies and in their order, exactly when it is priced within the band, of a selected category when the page has no category route and some are selected, and has a compare-at price when the sale flag is set |
| `ProductFilters.ToggleCategory` | client/src/pages/products.tsx:111-119 | only the selection changes: a selected category is removed everywhere, an unselected one is appended; no other id changes membership, and a selection without duplicates stays without |
| `ProductFilters.ToggleCategoryTwice` | client/src/pages/products.tsx:111-119 | toggling a category twice restores every id's membership, and restores the selection exactly when the category was not selected |
| `ProductFilters.ToggleSale` | client/src/pages/products.tsx:122-124 | only the sale flag changes, and it flips |
| `ProductFilters.SaleOnlyNarrows` | client/src/pages/products.tsx:68-70 | turning the sale flag on keeps exactly the admitted products that have a compare-at price |
| `ProductFilters.ClearFilters` | client/src/pages/products.tsx:127-135 | whatever came before, the filters become 0, 2000, no category, no sale, and the slider 0 to 2000 |
| `ProductFilters.ClearedShowsPriceBand` | client/src/pages/products.tsx:49-135 | after clearing, the page shows exactly the products priced 0 to 2000 |
| `ProductFilters.ChangePriceRange` | client/src/pages/products.tsx:97-99 | moving the slider changes the slider only |
| `ProductFilters.CommitPriceRange` | client/src/pages/products.tsx:102-108 | releasing the slider makes its ends the price band and keeps the rest of the filters |
| `ProductFilters.CommittedBandFilters` | client/src/pages/products.tsx:55-108 | after moving and releasing the slider, every product shown is priced between its ends |
| `ProductFilters.DistinctIds` | client/src/pages/products.tsx:76-78 | `Array.from(new Set(ids))`: no duplicates, the same ids, the first id first |
| `ProductFilters.DistinctIdsFirstOccurrence` | client/src/pages/products.tsx:76-78 | the ids come in the order of their first occurrence: of two ids listed, the earlier one occurs in the input before any occurrence of the later one |
| `ProductFilters.CategoryIds` | client/src/pages/products.tsx:76-83 | the category ids offered are exactly those of the fetched products, once each; none before the products arrive |
| `ProductDetail.QuantityBound` | client/src/pages/product-detail.tsx:31-35 | the limit is the stock, or 10 when the stock is 0 or the product has not loaded; it is at least 1 unless the stock is negative |
| `ProductDetail.NextQuantity` | client/src/pages/product-detail.tsx:31-35 | the requested quantity is taken exactly when it is positive and within the limit, otherwise the quantity stays; a quantity within 1 and the limit stays there |
| `ProductDetail.QuantityStaysInRange` | client/src/pages/product-detail.tsx:20-35 | from a quantity within 1 and the limit, whatever is requested, it stays within 1 and the limit |
| `ProductDetail.Buttons` | client/src/pages/product-detail.tsx:213-224 | the minus button lowers the quantity by one above 1 and does nothing at 1; the plus button raises it by one below the limit and does nothing at the limit |
| `ProductDetail.QuantitySelector.constructor` | client/src/pages/product-detail.tsx:20 | the selector starts at 1 |
| `ProductDetail.QuantitySelector.HandleQuantityChange` | client/src/pages/product-detail.tsx:31-35 | the new quantity is the one the guard allows, and a quantity within 1 and the limit stays there |
| `ProductDetail.Stars` | client/src/pages/product-detail.tsx:59-63 | full stars are the rating rounded down; a half star is drawn exactly when the remaining fraction is at least 0.5; full, half and empty add up to 5; no rating counts as 0 |
| `ProductDetail.StarsDrawable` | client/src/pages/product-detail.tsx:61-72 | the star counts are non-negative, so the star arrays can be built, exactly for ratings from 0.0 to 5.4 |
| `ProductDetail.StarExamples` | client/src/pages/product-detail.tsx:59-63 | 4.5 and 4.7 draw four full stars and a half, 4.0 four full and one empty, no rating five empty |

## Left out

- User operations of `MemStorage` (`getUser`, `getUserByUsername`, `createUser`): map lookups and inserts that no other code calls.
- `initializeData` (server/storage.ts:228-418): the seed catalog; the model starts from the empty store.
- The `IStorage` interface and the promise wrappers: every operation is modelled as synchronous.
- `new Date()`, `nanoid()`, `fetch`, `apiRequest` and the `persist` middleware: the time, session id and request outcomes are parameters; the store is not persisted.
- The cart-store actions' request bodies and URLs: the model takes only whether a request succeeded and what the refetch returned.
- CartStore.CartStore.AddItem: the `isLoading` flag is stated only at the end of each action; the loading state in between is not modelled.
- `parseFloat` and floating point: prices are whole numbers and ratings whole tenths, so the filter's price comparison and the star split are exact.
- Text.ToLower: lower-cases only ASCII letters; JavaScript's full Unicode case mapping is not modelled.
- The category names of the filter panel (`getCategoryName`) and all rendering.
- The discount percentage and price formatting on the product page.
- The Express routes, the server bootstrap and the database schema declarations, beyond the field types.
