/** The relational store the services reach through Prisma, held in memory: one
    field per table, keyed by the table's auto-increment id (ids start at 1),
    and the integrity rules the services rely on. */
module Store {
  import opened Common

  datatype OrderStatus = Pending | PaymentPending | Paid

  /** One product line of an order: the unit price is captured when the order is written. */
  datatype OrderItem = OrderItem(productId: int, quantity: int, price: real)

  /** The `paymentResult` payload stored on an order once it is paid. */
  datatype Receipt = Receipt(id: string, status: string, email: string, pricePaid: real)

  datatype Order = Order(
    userId: Option<int>,
    shippingStreet: string, shippingCity: string, shippingZip: string,
    paymentMethod: string,
    itemsPrice: real, taxPrice: real, shippingPrice: real, totalAmount: real,
    status: OrderStatus,
    isPaid: bool, paidAt: Option<int>,
    isDelivered: bool, deliveredAt: Option<int>,
    paymentResult: Option<Receipt>,
    items: seq<OrderItem>)

  datatype Payment = Payment(
    orderId: int, amount: real, status: string, paymentMethod: string,
    transactionId: Option<string>, stripeSessionId: Option<string>)

  /** A `cartProduct` row of a user's cart. */
  datatype CartLine = CartLine(productId: int, quantity: int)

  datatype Product = Product(name: string, description: string, price: real, imagePath: Option<string>, categoryId: int)

  datatype Category = Category(name: string, description: Option<string>)

  /** A review of a product by a user. */
  datatype Advice = Advice(id: int, content: string, rating: int, productId: int, userId: int)

  /** The stored address is a single string (sign-up stores `dto.address` as is). */
  datatype User = User(address: string, profileImagePath: Option<string>)

  /** No two lines of one cart are for the same product. */
  ghost predicate DistinctProducts(lines: seq<CartLine>)
  {
    forall i, j :: 0 <= i < j < |lines| ==> lines[i].productId != lines[j].productId
  }

  /** Rows of the review table in creation order, ids strictly increasing. */
  ghost predicate IdsIncreasing(rows: seq<Advice>)
  {
    forall i, j :: 0 <= i < j < |rows| ==> rows[i].id < rows[j].id
  }

  /** `payment.orderId` is a unique column: at most one payment per order. */
  ghost predicate OnePaymentPerOrder(payments: map<int, Payment>)
  {
    forall p, q :: p in payments && q in payments && payments[p].orderId == payments[q].orderId ==> p == q
  }

  ghost predicate KeysBelow<V>(m: map<int, V>, next: int)
  {
    forall k :: k in m ==> 1 <= k < next
  }

  class Db {
    var users: map<int, User>
    var products: map<int, Product>
    var categories: map<int, Category>
    /** `inventory` rows: product id to quantity on hand. */
    var inventory: map<int, int>
    var orders: map<int, Order>
    var payments: map<int, Payment>
    /** `cart` rows keyed by their unique user id, each with its `cartProduct` lines. */
    var carts: map<int, seq<CartLine>>
    var advices: seq<Advice>
    var nextProductId: int
    var nextCategoryId: int
    var nextOrderId: int
    var nextPaymentId: int
    var nextAdviceId: int

    ghost predicate Valid()
      reads this
    {
      && nextProductId >= 1 && nextCategoryId >= 1 && nextOrderId >= 1 && nextPaymentId >= 1 && nextAdviceId >= 1
      && KeysBelow(products, nextProductId)
      && KeysBelow(categories, nextCategoryId)
      && KeysBelow(orders, nextOrderId)
      && KeysBelow(payments, nextPaymentId)
      && OnePaymentPerOrder(payments)
      && (forall p :: p in payments ==> payments[p].orderId < nextOrderId)
      && (forall u :: u in carts ==> DistinctProducts(carts[u]))
      && IdsIncreasing(advices)
      && (forall i :: 0 <= i < |advices| ==> 1 <= advices[i].id < nextAdviceId)
    }

    constructor (users: map<int, User>)
      ensures Valid()
      ensures this.users == users
      ensures products == map[] && categories == map[] && inventory == map[] && orders == map[]
      ensures payments == map[] && carts == map[] && advices == []
    {
      this.users := users;
      products, categories, inventory, orders, payments, carts, advices :=
        map[], map[], map[], map[], map[], map[], [];
      nextProductId, nextCategoryId, nextOrderId, nextPaymentId, nextAdviceId := 1, 1, 1, 1, 1;
    }
  }
}
