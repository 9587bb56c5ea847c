/**
 * The server records the core reads: a product, a purchase (a product in
 * the cart, or bought) and a category. Only the fields some modelled rule
 * reads or writes are kept.
 */
module Types {
  /** A catalogue product; `price` and `priceBeforeDiscount` are the product's own list prices. */
  datatype Product = Product(
    id: string,
    name: string,
    price: int,
    priceBeforeDiscount: int,
    quantity: int)

  /** A purchase record; its `price` fields are the purchase's own, which the cart totals use. */
  datatype Purchase = Purchase(
    id: string,
    buyCount: int,
    price: int,
    priceBeforeDiscount: int,
    status: int,
    user: string,
    product: Product)

  datatype Category = Category(id: string, name: string)
}
