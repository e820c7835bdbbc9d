/** The records the storefront reads from and writes to its backend tables.
    Nullable columns are `Option`s; amounts are whole taka. */
module Types {
  import opened Wrappers

  /** A registered customer as the application holds it (no password). */
  datatype User = User(id: string, name: string, phone: string, createdAt: string)

  /** A row of the `products` table. */
  datatype Product = Product(
    id: string,
    name: string,
    description: Option<string>,
    price: int,
    imageUrl: Option<string>,
    category: string,
    stock: int,
    featured: bool,
    rating: Option<real>,
    discountPercentage: Option<int>,
    originalPrice: Option<int>)

  /** One line of an order: a product, how many, and the unit price paid. */
  datatype OrderItem = OrderItem(productId: string, productName: string, quantity: int, price: int)

  /** The columns of an `orders` row that the application writes. `isGuest`,
      `guestName` and `guestPhone` are `None` when the insert omits them. */
  datatype OrderData = OrderData(
    userId: Option<string>,
    isGuest: Option<bool>,
    guestName: Option<string>,
    guestPhone: Option<string>,
    items: seq<OrderItem>,
    total: int,
    status: string,
    paymentMethod: string,
    shippingAddress: string,
    shippingCity: string,
    shippingPhone: string,
    notes: Option<string>)

  /** A stored order: the backend-assigned id and the written columns. */
  datatype Order = Order(id: string, data: OrderData)

  /** An entry of the shopping cart, with the product it refers to when loaded. */
  datatype CartItem = CartItem(id: string, productId: string, quantity: int, product: Option<Product>)

  /** A row of the `banners` table: a homepage carousel slide. */
  datatype Banner = Banner(
    id: string,
    imageUrl: string,
    title: Option<string>,
    subtitle: Option<string>,
    buttonText: string,
    buttonLink: string,
    isActive: bool,
    sortOrder: int)

  /** The MIME type and size in bytes of a file picked in a file input. */
  datatype FileInfo = FileInfo(mimeType: string, size: int)
}
