/** The storefront's shared records (src/types/index.ts). */
module Types {
  import opened Wrappers

  /**
   * A catalog product as the API delivers it (the JSON names of the last
   * four fields are `image_url`, `in_stock`, `created_at`, `updated_at`).
   * Prices are whole crowns.
   */
  datatype Product = Product(
    id: string,
    name: string,
    price: int,
    description: string,
    shortDescription: Option<string>,
    imageUrl: Option<string>,
    category: Option<string>,
    inStock: Option<bool>,
    createdAt: Option<string>,
    updatedAt: Option<string>)

  /** One line of the cart: a product and how many of it. */
  datatype CartItem = CartItem(product: Product, quantity: int)
}
