/**
 * The records of the storefront's tables. Decimal prices are whole
 * rupees (every seeded price is a whole number) and a rating is counted
 * in tenths of a star, as its one-decimal column allows.
 */
module Schema {
  import opened Wrappers

  datatype Category = Category(
    id: int,
    name: string,
    slug: string,
    description: Option<string>,
    imageUrl: Option<string>)

  datatype Product = Product(
    id: int,
    name: string,
    slug: string,
    description: Option<string>,
    price: int,
    compareAtPrice: Option<int>,
    imageUrl: Option<string>,
    categoryId: int,
    isFeatured: bool,
    isTrending: bool,
    badge: Option<string>,
    stock: int,
    rating: Option<int>,
    reviewCount: Option<int>)

  /** A cart line; `createdAt` is the creation time the caller supplies. */
  datatype CartItem = CartItem(
    id: int,
    sessionId: string,
    productId: int,
    quantity: int,
    createdAt: int)

  /** The body of an add-to-cart request. */
  datatype NewCartItem = NewCartItem(sessionId: string, productId: int, quantity: int)
}
