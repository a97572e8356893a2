/**
 * The persistent entities of the shop, as values.  Identifiers are the keys
 * of the tables in `Store.Database`, so an entity does not repeat its own id.
 * Money is counted in hundredths: every price and total column has scale 2.
 */
module Entities {
  import opened Wrappers

  type Money = int

  datatype OrderStatus = PENDING | PAID | PROCESSING | SHIPPED | COMPLETED | CANCELED

  datatype PaymentMethod = COD | VN_PAY

  datatype Role = BUYER | ADMIN

  datatype AuthProvider = LOCAL | GOOGLE | FACEBOOK

  // ----- products -----------------------------------------------------------

  datatype ProductImage = ProductImage(imageUrl: string, primary: bool, displayOrder: int)

  /**
   * The stored average rating: the zero written when a product has no
   * visible review, or a mean of the visible ratings rounded to two places
   * (its value is not modelled).
   */
  datatype AverageRating = ZeroRating | RoundedMean

  /** The watch-specific text columns, copied verbatim from a request. */
  datatype WatchDetails = WatchDetails(
    brand: Option<string>, model: Option<string>, movement: Option<string>,
    caseMaterial: Option<string>, strapMaterial: Option<string>,
    dialColor: Option<string>, waterResistance: Option<string>)

  datatype Product = Product(
    name: string,
    description: Option<string>,
    price: Money,
    stock: int,
    barcode: Option<string>,
    details: WatchDetails,
    categoryId: Option<int>,
    visible: bool,
    images: seq<ProductImage>,
    averageRating: AverageRating,
    reviewCount: int)

  /**
   * The order in which Hibernate loads a product's images:
   * `displayOrder` ascending, primary images first among equal orders.
   */
  predicate ImagesOrdered(images: seq<ProductImage>) {
    forall i, j :: 0 <= i < j < |images| ==>
      images[i].displayOrder < images[j].displayOrder ||
      (images[i].displayOrder == images[j].displayOrder && (images[j].primary ==> images[i].primary))
  }

  /** Index of the first image flagged primary. */
  function FirstPrimary(images: seq<ProductImage>): (r: Option<nat>)
    ensures r.None? <==> forall i :: 0 <= i < |images| ==> !images[i].primary
    ensures r.Some? ==> r.value < |images| && images[r.value].primary &&
                        forall i :: 0 <= i < r.value ==> !images[i].primary
  {
    if images == [] then None
    else if images[0].primary then Some(0)
    else match FirstPrimary(images[1..])
      case None => None
      case Some(k) => Some(k + 1)
  }

  /**
   * `Product.getPrimaryImageUrl`: no image gives null; otherwise the url of
   * the first primary image, or of the first image when none is primary.
   */
  function PrimaryImageUrl(p: Product): (r: Option<string>)
    ensures r.None? <==> p.images == []
    ensures r.Some? ==> exists i :: 0 <= i < |p.images| && p.images[i].imageUrl == r.value
    ensures (exists i :: 0 <= i < |p.images| && p.images[i].primary) ==>
              r.Some? && exists i :: 0 <= i < |p.images| && p.images[i].primary && p.images[i].imageUrl == r.value &&
                                     forall j :: 0 <= j < i ==> !p.images[j].primary
    ensures p.images != [] && (forall i :: 0 <= i < |p.images| ==> !p.images[i].primary) ==>
              r == Some(p.images[0].imageUrl)
  {
    if p.images == [] then None
    else match FirstPrimary(p.images)
      case Some(k) => Some(p.images[k].imageUrl)
      case None => Some(p.images[0].imageUrl)
  }

  // ----- orders ---------------------------------------------------------------

  /** One line of an order: the product, how many, and the unit price charged. */
  datatype OrderItem = OrderItem(productId: int, quantity: int, price: Money)

  datatype Shipping = Shipping(
    fullName: Option<string>, phone: Option<string>, address: Option<string>, notes: Option<string>)

  datatype Order = Order(
    userId: int,
    totalAmount: Money,
    status: OrderStatus,
    paymentMethod: PaymentMethod,
    vnpayTransactionId: Option<string>,
    cancellationReason: Option<string>,
    shipping: Shipping,
    items: seq<OrderItem>)

  /** The sum of price times quantity over a list of order lines. */
  function LinesTotal(items: seq<OrderItem>): Money {
    if items == [] then 0 else LinesTotal(items[..|items| - 1]) + items[|items| - 1].price * items[|items| - 1].quantity
  }

  // ----- carts ----------------------------------------------------------------

  datatype CartItem = CartItem(productId: int, quantity: int, priceAtAddition: Money)

  /** A user's cart; time stamps are milliseconds since the epoch. */
  datatype Cart = Cart(items: seq<CartItem>, lastUpdated: int)

  // ----- the rest ---------------------------------------------------------------

  datatype Review = Review(
    productId: int, userId: int, orderId: int, rating: int, comment: Option<string>, visible: bool)

  datatype User = User(
    username: string,
    password: string,
    email: string,
    firstName: Option<string>,
    lastName: Option<string>,
    phone: Option<string>,
    address: Option<string>,
    dateOfBirth: Option<int>,
    role: Role,
    provider: AuthProvider)

  datatype Invoice = Invoice(orderId: int, invoiceNumber: string, totalAmount: Money)

  datatype Favorite = Favorite(userId: int, productId: int)

  datatype ResetToken = ResetToken(email: string, token: string, expiryDate: int)
}
