/** The records the storefront keeps (the shapes of `types/index.ts` and of
    the database rows). Money is in cents; `rating` is in hundredths of a
    star. Zod-parsed JSON columns (address, payment result) are plain
    records. */
module Records {

  import opened Common

  /** One line of a cart: a product, its price when it was added, how many. */
  datatype CartItem = CartItem(
    productId: Id,
    name: string,
    slug: string,
    qty: int,
    image: string,
    price: int)

  /** The four derived money fields of a cart or an order. */
  datatype Prices = Prices(itemsPrice: int, shippingPrice: int, taxPrice: int, totalPrice: int)

  /** A cart belongs to a browser session and, once someone signs in, to a user. */
  datatype Cart = Cart(
    id: Id,
    userId: Option<Id>,
    sessionCartId: Id,
    items: seq<CartItem>,
    prices: Prices)

  datatype Product = Product(
    id: Id,
    name: string,
    slug: string,
    category: string,
    brand: string,
    description: string,
    stock: int,
    images: seq<string>,
    isFeatured: bool,
    banner: Option<string>,
    price: int,
    rating: int,
    numReviews: int,
    createdAt: Time)

  datatype Address = Address(
    fullName: string,
    streetAddress: string,
    city: string,
    postalCode: string,
    country: string)

  /** `password` holds the bcrypt hash, never the plain password. */
  datatype User = User(
    id: Id,
    name: string,
    email: string,
    password: Option<string>,
    role: string,
    address: Option<Address>,
    paymentMethod: Option<string>)

  /** The payment processor's proof of payment, kept as it arrives. */
  datatype PaymentResult = PaymentResult(
    id: string,
    status: string,
    emailAddress: string,
    pricePaid: string,
    updateTime: string)

  datatype Order = Order(
    id: Id,
    userId: Id,
    shippingAddress: Address,
    paymentMethod: string,
    prices: Prices,
    isPaid: bool,
    paidAt: Option<Time>,
    isDelivered: bool,
    deliveredAt: Option<Time>,
    paymentResult: Option<PaymentResult>,
    createdAt: Time)

  /** A cart line frozen into an order. */
  datatype OrderItem = OrderItem(
    orderId: Id,
    productId: Id,
    name: string,
    slug: string,
    qty: int,
    image: string,
    price: int)

  /** The role a new user row gets from the database schema's default. */
  const DEFAULT_ROLE := "user"
}
