/** Shared vocabulary: optional values, the HTTP error taxonomy the services throw,
    and the results that carry either a value or one of those errors. */
module Common {

  datatype Option<T> = None | Some(value: T)
  {
    function GetOr(default: T): T
    {
      match this
      case Some(v) => v
      case None => default
    }
  }

  /** The NestJS exception classes the services raise; an error that is not an
      HttpException (a failed Prisma write, a plain `Error`) reaches the client
      as InternalServerError. */
  datatype Status = BadRequest | NotFound | Forbidden | Unauthorized | InternalServerError

  /** Why an operation failed; one constructor per distinct message in the source. */
  datatype Reason =
    // order.service.ts: validateOrderData
    | IncompleteAddress
    | MissingPaymentMethod
    | EmptyCart
    | IncompleteItem(index: nat)
    | NegativePrice
    | QuantityNotPositiveInteger
    // order.service.ts: validateProductsAndStock
    | ProductsUnavailable
    | ProductMissing(productId: int)
    | InsufficientStock(productId: int, available: int)
    | ExcessiveQuantity(productId: int)
    // order.service.ts: comparePrices
    | ItemsPriceMismatch
    | TaxPriceMismatch
    | TotalAmountMismatch
    // order.service.ts: order lifecycle
    | UserNotFound
    | OrderNotFound
    | AlreadyPaid
    | NotPaid
    | OrderUpdateFailed
    | DeliveryFailed(cause: Reason)
    | OrderWriteFailed
    | FrontendUrlMissing
    | SessionIdMissing
    // payment gateway
    | GatewayFailed
    // checkout.service.ts
    | NoCheckoutItems
    | InvalidUserId
    | ProductIdNotANumber
    | CheckoutProductNotFound(productId: int)
    | CheckoutStockShort(productId: int)
    | CheckoutFailed(cause: Reason)
    // cart.service.ts
    | CartNotFound
    | CartProductUnknown
    | ProductNotInCart
    // payment.service.ts
    | PaymentOrderNotFound
    | PaymentWriteFailed
    // product.service.ts
    | CategoryNameNotFound
    | ProductNotFound
    | InvalidPriceRange
    | NoProductsInCategory
    // advice.service.ts
    | AdviceProductMissing
    | AdviceNotFound
    | NotAdviceAuthor
    // category.service.ts
    | MissingFields
    | NameTaken
    | MissingId
    | CategoryMissing
    // admin.guard.ts
    | NotAuthenticated
    | AdminRequired
    // any Prisma update/connect whose target row does not exist
    | RecordMissing

  datatype Error = Error(status: Status, reason: Reason)

  datatype Result<T> = Ok(value: T) | Err(error: Error)

  /** A check that either passes or stops with an error (a function that only throws). */
  datatype Outcome = Pass | Fail(error: Error)

  /** `Number.isInteger` on a JSON number (the test behind `@IsInt`). */
  predicate IsInteger(x: real) { x.Floor as real == x }

  /** Decimal rendering of an integer, as JavaScript's `toString` on an integral number. */
  function IntToString(n: int): (s: string)
    ensures |s| >= 1
    ensures n >= 0 ==> forall k :: 0 <= k < |s| ==> '0' <= s[k] <= '9'
    decreases if n < 0 then 1 - n else n
  {
    if n < 0 then "-" + IntToString(-n)
    else if n < 10 then [DigitChar(n)]
    else IntToString(n / 10) + [DigitChar(n % 10)]
  }

  function DigitChar(d: int): (c: char)
    requires 0 <= d < 10
    ensures '0' <= c <= '9'
  {
    ['0', '1', '2', '3', '4', '5', '6', '7', '8', '9'][d]
  }
}
