/** The records the resolvers read and write: the enums of the GraphQL schema
    (dist/schema/index.js) and one datatype per table row. Timestamps are
    milliseconds since the epoch; money is a decimal amount in naira. */
module Domain {
  import opened Errors

  type Id = string
  type Time = int
  type Money = real

  datatype Role = Customer | Admin

  datatype OrderStatus = Pending | Confirmed | Preparing | Ready | Delivered | Cancelled

  datatype OrderType = Delivery | Pickup

  /** Shares CONFIRMED and CANCELLED with OrderStatus: write those qualified. */
  datatype CateringStatus = Inquiry | Quoted | Confirmed | Completed | Cancelled

  /** A row of the user table; `password` holds the bcrypt hash. */
  datatype User = User(
    id: Id, email: string, username: string, phone: string,
    password: string, role: Role)

  datatype Category = Category(
    id: Id, name: string, description: Option<string>, imageUrl: Option<string>,
    isActive: bool, sortOrder: int)

  datatype MenuItem = MenuItem(
    id: Id, name: string, description: string, price: Money,
    imageUrl: Option<string>, isAvailable: bool, isSpicy: bool, isVegetarian: bool,
    prepTime: Option<int>, categoryId: Id)

  /** One line of an order: the price is a snapshot of the menu item's price. */
  datatype OrderItem = OrderItem(
    menuItemId: Id, quantity: int, price: Money, notes: Option<string>)

  datatype Order = Order(
    id: Id, orderNumber: string, userId: Id, orderType: OrderType,
    status: OrderStatus, totalAmount: Money, deliveryFee: Option<Money>,
    customerName: string, customerPhone: string, customerEmail: string,
    deliveryAddress: Option<string>, deliveryNotes: Option<string>,
    requestedTime: Option<Time>, paymentMethod: string,
    estimatedTime: Option<Time>, deliveredAt: Option<Time>,
    items: seq<OrderItem>)

  datatype CateringInquiry = CateringInquiry(
    id: Id, userId: Option<Id>, name: string, email: string, phone: string,
    eventType: string, eventDate: Time, guestCount: int, location: string,
    requirements: string, budget: Option<Money>, status: CateringStatus,
    quotedAmount: Option<Money>, notes: Option<string>)

  datatype Review = Review(
    id: Id, userId: Id, rating: int, comment: string, isApproved: bool)

  /** FREE_DELIVERY_THRESHOLD and DEFAULT_DELIVERY_FEE, read once from the
      environment (5000 and 500 when unset). */
  datatype FeeConfig = FeeConfig(freeDeliveryThreshold: Money, defaultDeliveryFee: Money)

  /** The foreign checks the input schemas delegate to: Joi's e-mail and URI
      grammars, and the clock `greater('now')` compares against. */
  datatype Checks = Checks(isEmail: string -> bool, isUri: string -> bool, now: Time)
}
