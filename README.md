# Escargot shop backend — a verified model of its services

This project models the service layer of a NestJS + Prisma web shop that sells snails. The parts modelled are:

- the order lifecycle: placing an order at client-supplied prices, paying it by cash on delivery or through the card gateway, delivering it, deleting it, and the paged order lists;
- the Stripe checkout flow: a checkout session first, then the transactional order creation that reserves stock and empties the cart;
- the cart, payment, product (create, read, update, delete, plus the full-text search with its filters), review ("advice"), category and image services;
- the admin route guard;
- the class-validator request objects: sign-up, password-reset confirmation, admin user insert, cart and review DTOs.

## How it is modelled

- **The database** is one class, `Store.Db`, with one field per table. Tables are maps keyed by an auto-increment id, except the review table, which is a sequence in creation order. Carts map a user id to its `cartProduct` lines. The ghost predicate `Db.Valid()` states the integrity rules the services rely on:
  - ids lie below the next free id;
  - an order has at most one payment, since `payment.orderId` is unique;
  - a cart has no two lines for one product;
  - review ids increase.
- **Operations** are module-level methods taking the `Db`. Their frames are field-granular (``modifies db`carts``), so "nothing else changes" comes from the frame. Every `ensures` states the whole new content of each field the method may change.
- **Transactions** (`$transaction`, or a single Prisma write) are modelled by computing on locals and assigning the fields only on success. An error therefore leaves every table as it was.
- **Errors.** A thrown NestJS exception is `Err(Error(status, reason))`, with one `Reason` per distinct message. A Prisma write on a missing row, or any plain `Error`, becomes `InternalServerError`. That status is either caught and rethrown or is what Nest answers by default. Replies that report failure in-band (`{ success: false }`) become a `success` out-parameter.
- **What the services merely compute** is written as functions. Examples: the order checks, the price recomputation, the stock loops' meaning, the search filter and paging, the category-name formatter, and the DTO predicates.
- **Loops** that walk a working copy of a table are methods with loop invariants (`Stock.DecrementLoop`, `Stock.ReserveLoop`). Each is proved equal to a recursive specification function, and the meaning of that function is proved as a lemma.
- **Money** is `real`. This is exact, as decimal.js is in `OrdersService`.
- **Times** (`new Date()`) are an `int` parameter `now`.
- **External calls** are function parameters:
  - the gateway: create a session, retrieve a session;
  - JavaScript `Number` on a price-range half;
  - whether the receipt e-mail was sent, as a `bool`.

## Model

| member | source | states |
|---|---|---|
| OrderPricing.CheckLine | src/order/order.service.ts:203-215 | A line passes exactly when it is accepted: truthy product id, price present and not negative, whole positive quantity. A missing field reports the line's index. Every failure is a BadRequest. |
| OrderPricing.CheckLines | src/order/order.service.ts:203-215 | The `forEach` passes iff every line from `from` on is accepted. On failure, the error is that of the first line not accepted, and every line before it is accepted. |
| OrderPricing.ValidateOrderData | src/order/order.service.ts:192-216 | Passes iff the address is complete, the payment method is given, the item list is non-empty and every line is accepted. Failures are BadRequest. |
| OrderPricing.ValidationOrder | src/order/order.service.ts:192-216 | The first failing check decides the error: address, then payment method, then empty list, then the first line that is not accepted. |
| OrderPricing.FoundIds | src/order/order.service.ts:220-224 | The inventory rows found are exactly the listed products that have an inventory row. |
| OrderPricing.FoundIdsCount | src/order/order.service.ts:226-229 | There are never more rows than lines. The counts are equal iff the lines name distinct products that all have inventory. |
| OrderPricing.CheckStockLine | src/order/order.service.ts:233-244 | A line passes iff its row exists, holds at least the quantity, and the quantity is at most 50. A line short of stock reports the stock, even when over the cap. |
| OrderPricing.CheckStockLines | src/order/order.service.ts:233-244 | The stock `forEach` passes iff every line does. On failure, the error is that of the first failing line. |
| OrderPricing.ValidateProductsAndStock | src/order/order.service.ts:219-245 | The product lookup's count check, then the stock loop. `StockCheckMeaning` proves what it accepts. |
| OrderPricing.StockCheckMeaning | src/order/order.service.ts:219-245 | `validateProductsAndStock` passes iff the products are distinct and every line is in stock within the cap. |
| OrderPricing.DuplicateLineRejected | src/order/order.service.ts:226-229 | Two lines for one product always fail as "products unavailable" (NotFound), whatever the stock. |
| OrderPricing.Subtotal | src/order/order.service.ts:251-254 | Σ price × quantity over the lines, from the left. `SubtotalAppend` and `SubtotalNonNegative` state its properties. |
| OrderPricing.SubtotalAppend | src/order/order.service.ts:251-254 | The `reduce` is additive over concatenation. |
| OrderPricing.SubtotalNonNegative | src/order/order.service.ts:251-254 | Accepted lines give a subtotal of at least 0. |
| OrderPricing.CalculatePrices | src/order/order.service.ts:250-261 | The items price is the subtotal, the tax is a fifth of it, and the total is 1.2 times it plus the shipping price (0 when absent). |
| OrderPricing.ComparePrices | src/order/order.service.ts:263-278 | Passes iff all three claimed amounts are exactly equal to the computed ones. Failures are BadRequest. |
| OrderPricing.PriceCheckMeaning | src/order/order.service.ts:176-178 | The price check accepts exactly the requests whose amounts are the subtotal, a fifth of it, and 1.2 times it plus shipping. |
| OrderPricing.CheckOrder | src/order/order.service.ts:166-178 | Field validation, then the stock check, then the price check; the first error wins. `CheckOrderMeaning` proves what it accepts. |
| OrderPricing.CheckOrderMeaning | src/order/order.service.ts:166-178 | The whole pre-check passes iff the request is acceptable: fields valid, distinct products in stock within the cap, and prices matching. |
| OrderPricing.NegativeShippingAccepted | src/order/order.service.ts:255-260 | A concrete request with shipping price −24 passes the whole pre-check, because shipping is never checked on its own. |
| OrderService.NewOrder | src/order/order.service.ts:281-324 | The written order has one item per line, with the line's product id and price and a positive whole quantity. It is PENDING, unpaid and undelivered, with no payment date, delivery date or receipt, and belongs to the caller. The address, payment method and the four amounts are the request's, shipping 0 when absent. For a request that passed the price check, the items price is the subtotal of the lines, total = items + tax + shipping and tax = items / 5. |
| OrderService.SessionForOrder | src/order/order.service.ts:328-355 | One session line per order line, named `Produit <product id>`, priced at 100 × the unit price with the same quantity. The success and cancel URLs are derived from the frontend URL. No metadata. |
| OrderService.SessionOutcome | src/order/order.service.ts:328-355 | After the write, the result is Ok iff the frontend URL is set and the gateway returns a non-empty session id. The Ok value carries the new order id and that session id. Otherwise the result is an InternalServerError. |
| OrderService.InsertOrder | src/order/order.service.ts:291-315 | The order is written under the next id, and the counter advances. |
| OrderService.CreateOrder | src/order/order.service.ts:157-190 | A missing user is NotFound. A failed pre-check returns that check's error. A line naming a missing product fails the write. In all of these, nothing is written. Otherwise the order is written under the next id before the session is requested, and the result is the session outcome. |
| OrderService.UpdateOrderToPaid | src/order/order.service.ts:494-541 | Missing → NotFound; already paid → BadRequest; a line without an inventory row → InternalServerError with nothing changed. Otherwise every product row loses the order's whole demand for it, no other row changes, and the order is marked paid at `now` with the receipt. A failed e-mail still reports an error. |
| OrderService.UpdateOrderToPaidByCod | src/order/order.service.ts:546-557 | `success` is true iff the payment committed and the mail was sent. The order is marked paid without a receipt exactly when committed, and each product's stock then drops by its demand in the order; otherwise orders and stock are unchanged. `order` is the paid order on success and absent otherwise. |
| OrderService.ApproveStripeOrder | src/order/order.service.ts:451-492 | `success` is true iff the order exists and the retrieved session reports `paid`. Then the order is marked paid with the session's id, status, e-mail and amount (cents / 100). Otherwise nothing changes, and the inventory is never touched. |
| OrderService.DeliverOrder | src/order/order.service.ts:559-582 | Ok iff the order exists and is paid. Then only `isDelivered` and `deliveredAt` change. Every failure is an InternalServerError wrapping the cause. |
| OrderService.DeleteOrder | src/order/order.service.ts:384-394 | `success` is true iff the order existed, and afterwards the order is gone either way. |
| OrderService.MineNewestFirst | src/order/order.service.ts:48-57 | The ids below the bound of exactly the user's orders, each once, in strictly decreasing order, which is newest first since ids follow creation. |
| OrderService.MineCount | src/order/order.service.ts:48-57 | Over a table whose ids lie below the bound, the listing has as many ids as the user has orders, which is what `count({ where: { userId } })` gives. |
| OrderService.IdsInOrder | src/order/order.service.ts:113-119 | The ids below the bound of exactly the stored orders, each once, strictly increasing. |
| OrderService.AllCount | src/order/order.service.ts:147-148 | Over a table whose ids lie below the bound, the listing has as many ids as the table has rows, which is what `count()` gives. |
| OrderService.GetMyOrders | src/order/order.service.ts:48-63 | `data` is page `page` of the user's orders taken newest first, with `skip = (page − 1) × limit`, as id and stored row without its order lines (the query loads no relation). `totalPages` is `ceil(count / limit)` over all of the user's orders. Every row is a stored order of the user, the ids strictly decrease, and there are at most `limit` rows. The page is non-empty iff its number is within `totalPages`. |
| OrderService.GetAllOrders | src/order/order.service.ts:108-152 | Defaults are page 1 and limit 10. `data` is that page of the whole table in id order, as id and stored row with its order lines. `totalPages` is `ceil(count / limit)` over all orders. The ids strictly increase, there are at most `limit` rows, and the page is non-empty iff its number is within `totalPages`. With no arguments, the result is the first min(10, count) orders. |
| Stock.Decrement | src/order/order.service.ts:505-511 | The unchecked decrement as a recursive function. `DecrementMeaning` states what it computes. |
| Stock.DecrementMeaning | src/order/order.service.ts:505-511 | The unchecked decrement succeeds iff every line's product has an inventory row. It then takes each product's whole demand off its row, leaves the other rows alone, and can go negative. |
| Stock.DecrementLoop | src/order/order.service.ts:505-511 | The `for` loop over a working copy computes exactly `Decrement`. |
| Stock.Reserve | src/checkout/checkout.service.ts:186-217 | The checked reservation as a recursive function. `ReserveMeaning` and `ReserveNeverOversells` state what it computes. |
| Stock.ReserveMeaning | src/checkout/checkout.service.ts:186-217 | The checked reservation succeeds iff every line can be served from the stock the earlier lines left. It then takes each product's whole demand off its row. Errors are BadRequest. |
| Stock.ReserveNeverOversells | src/checkout/checkout.service.ts:186-217 | After a successful reservation no touched row is negative, and repeated lines for a product never jointly exceed its stock. |
| Stock.ReserveLoop | src/checkout/checkout.service.ts:186-217 | The stock loop over the transaction's copy computes exactly `Reserve`. |
| CheckoutService.CartTotal | src/checkout/checkout.service.ts:36 | Σ price × quantity over the cart lines, from the left. `CartTotalAppend` and `CartTotalNonNegative` state its properties. |
| CheckoutService.CartTotalAppend | src/checkout/checkout.service.ts:36 | The cart total is additive over concatenation. |
| CheckoutService.CartTotalNonNegative | src/checkout/checkout.service.ts:132-135 | Non-negative prices and quantities give a non-negative total. |
| CheckoutService.CopiedLinesTotal | src/checkout/checkout.service.ts:36-54 | Order items that copy the cart lines' products, quantities and prices add up to exactly the cart total. |
| CheckoutService.OrderLines | src/checkout/checkout.service.ts:49-54 | One order item per cart line, with the same product, quantity and price, so the written items add up to the cart total. |
| CheckoutService.SessionOrder | src/checkout/checkout.service.ts:36-64 | The checkout order's total and items price both equal the cart total, with no tax and no shipping, and the items price is what the written items add up to. It is pending and unpaid, with the cart's lines. |
| CheckoutService.SessionFor | src/checkout/checkout.service.ts:73-101 | One gateway line per cart line: its name, its image, its price in cents, its quantity. A given non-empty success or cancel URL is used as is; an absent or empty one falls back to the localhost default. The metadata carries the user id as a string and the order id. |
| CheckoutService.CreateCheckoutSession | src/checkout/checkout.service.ts:20-113 | Empty cart → BadRequest; falsy user id → BadRequest; a missing or zero product id → InternalServerError, since the write fails before the later BadRequest is reached. When the write succeeds, the order is stored under the next id and stays stored whatever the gateway answers. Ok iff the gateway answers. |
| CheckoutService.CheckoutOrder | src/checkout/checkout.service.ts:131-166 | 20% tax, fixed shipping of 5, total = 1.2 × items + 5, PENDING, method `stripe`, the cart's lines, and an items price equal to what those lines add up to. The user is set exactly when the id is truthy. |
| CheckoutService.Commit | src/checkout/checkout.service.ts:177-225 | The transaction's writes: the order and its payment under the next ids, and the new inventory and carts. |
| CheckoutService.CreateOrder | src/checkout/checkout.service.ts:119-242 | Ok iff the user (when given) exists and has a cart, every product exists, and the reservation succeeds. Then the order and its pending payment are written, the stock is reserved and the user's cart is emptied. Any error leaves all six tables as they were, and its status is BadRequest, NotFound or InternalServerError. |
| CartService.IndexOfProduct | src/cart/cart.service.ts:61-66 | `findFirst` on a cart's lines returns the first line for the product, or none iff no line has that product. |
| CartService.QuantityOf | src/cart/cart.service.ts:61-72 | The reference: the total quantity the lines hold for a product. The line operations are specified against it. |
| CartService.AddLine | src/cart/cart.service.ts:61-81 | Merge into the product's first line, or append a new one. `AddLineMeaning` states what it does. |
| CartService.SetLine | src/cart/cart.service.ts:104-113 | Quantity 0 deletes the product's line; any other quantity replaces it. `SetLineMeaning` states what it does. |
| CartService.RemoveLine | src/cart/cart.service.ts:136-138 | Deletes the product's line. `RemoveLineMeaning` states what it does. |
| CartService.QuantityOfDistinct | src/cart/cart.service.ts:61-72 | In a cart without duplicate products, the product's total quantity is that of its one line. |
| CartService.AddLineMeaning | src/cart/cart.service.ts:40-82 | Adding keeps one line per product, raises the product's quantity by exactly the amount added, and moves no other product. |
| CartService.SetLineMeaning | src/cart/cart.service.ts:84-114 | Updating sets the product's quantity to exactly the new value, where 0 removes the line. It moves no other product and keeps one line per product. |
| CartService.RemoveLineMeaning | src/cart/cart.service.ts:116-139 | Removing deletes exactly that product's line: one line fewer, and every other product keeps its quantity. |
| CartService.GetCart | src/cart/cart.service.ts:15-38 | The user's cart lines, or NotFound when the user has no cart. |
| CartService.AddToCart | src/cart/cart.service.ts:40-82 | An unknown product is a BadRequest with nothing changed. Otherwise the cart is created when missing, the quantity is merged into the product's line, and the returned line holds the new total. |
| CartService.UpdateCartItem | src/cart/cart.service.ts:84-114 | No cart, or no line for the product → NotFound with nothing changed. Otherwise the line's quantity is set, and 0 deletes the line. |
| CartService.RemoveFromCart | src/cart/cart.service.ts:116-139 | No cart, or no line for the product → NotFound. Otherwise exactly that line is removed. |
| CartService.ClearCart | src/cart/cart.service.ts:141-155 | NotFound without a cart. Otherwise the cart stays and has no lines. |
| PaymentService.CreatePayment | src/payment/payment.service.ts:9-35 | A missing order → NotFound. A second payment for an order → the write fails with nothing changed. Otherwise a PENDING payment is written under the next id, and the order's status becomes PAYMENT_PENDING with nothing else about it changed. |
| PaymentService.Updated | src/payment/payment.service.ts:38-45 | Only the status changes, plus the transaction id when one is given. |
| PaymentService.UpdatePaymentStatus | src/payment/payment.service.ts:37-56 | A missing payment fails with nothing changed. Otherwise the payment is updated. Only the status `COMPLETED` moves its order to PAID. When that order is gone, the call fails after the payment was already updated. |
| PaymentService.GetPaymentByOrderId | src/payment/payment.service.ts:58-62 | None iff no payment has that order. Otherwise the returned payment is the order's only one. |
| ProductSearch.SortOfFieldAndDirection | src/product/product.service.ts:64-71 | `field_dir` sorts by price only for `price` and otherwise by name. It is descending iff the field is `price` or `name` and the first word after `_` is `desc`. |
| ProductSearch.SortOfFieldAlone | src/product/product.service.ts:64-71 | A bare field sorts ascending, by price only for `price`. |
| ProductSearch.ParseSort | src/product/product.service.ts:64-71 | `sort` split on `_`: the field and direction. `SortOfFieldAndDirection` and `SortOfFieldAlone` state its cases. |
| ProductSearch.FormatCategory | src/product/product.service.ts:84-89 | Split on `_`, capitalize each word, join with spaces. `FormatCategoryIsTitleCase` and `FormatCategoryShape` state what it gives. |
| ProductSearch.FormatCategoryIsTitleCase | src/product/product.service.ts:84-89 | The split/capitalize/join formatter equals an independent character-wise rule: `_` becomes a space, the first letter of each word is upper-cased, and the rest are lower-cased. |
| ProductSearch.FormatCategoryShape | src/product/product.service.ts:84-89 | The formatted name is as long as the parameter and contains no `_`. |
| ProductSearch.FormatTwoWords | src/product/product.service.ts:84-89 | `a_b` formats as the two words capitalized and separated by one space. |
| ProductSearch.FreshSnails | src/product/product.service.ts:84-89 | `fresh_snails` formats as `Fresh Snails`. |
| ProductSearch.BuildFilter | src/product/product.service.ts:75-105 | The query's parts are present iff their parameters are non-empty: a lower-cased text query, the formatted category, and price bounds. The bounds are the numbers read from the first two `-` pieces. A rating condition is present iff the rating is positive, and its threshold is that rating. The result is BadRequest iff a range is given and its first piece, or its second piece, is missing or not a number. |
| ProductSearch.Select | src/product/product.service.ts:111-122 | The rows kept are exactly those of the table that match the filter. |
| ProductSearch.SelectAppend | src/product/product.service.ts:111-122 | Selecting from two stretches of rows is selecting from each, in that order, and one row is kept iff it matches. So the kept rows keep their table order and multiplicity. |
| ProductSearch.SelectKeepsOrder | src/product/product.service.ts:111-118 | The filter keeps a sorted table sorted. |
| ProductSearch.EmptyFilterKeepsAll | src/product/product.service.ts:73-122 | A filter without parts keeps every row, in order. |
| ProductSearch.FilterMeaning | src/product/product.service.ts:91-105 | With a positive rating, a row is kept iff it meets the other parts and has some review rated at least that value. Any other rating adds no condition. A price range keeps a row iff it meets the other parts and its price lies between the two numbers read from the range, both included. |
| ProductSearch.GlobalSearch | src/product/product.service.ts:61-143 | Defaults are page 1 and limit 12. Over a table given in the parsed sort order: BadRequest iff the filter is refused. Otherwise the products are page `page` of the matching rows, with `skip = (page − 1) × limit`, kept in the sort order. `totalCount` is the number of matching rows and `totalPages` is `ceil(totalCount / limit)`. Each product comes with its average rating. The page is non-empty iff its number is within `totalPages`. |
| ProductSearch.AverageRating | src/product/product.service.ts:189-191 | None iff there are no ratings. Otherwise the average times their number equals their sum. |
| ProductSearch.AverageWithinBounds | src/product/product.service.ts:51-53 | The average lies between the lowest and highest possible rating. |
| ProductService.RatingsOf | src/product/product.service.ts:183-191 | Empty iff the product has no review. Every rating comes from one of its reviews, and every review of it contributes its rating. |
| ProductService.RatingsOfAppend | src/product/product.service.ts:183-191 | The ratings of two stretches of reviews are those of each in order, and one review contributes its rating iff it is about the product. So there is one rating per review of the product, in review order. |
| ProductService.ViewOf | src/product/product.service.ts:45-54 | A stored product with the average of its review ratings. `ViewRatingMeaning` states when it has one and its bounds. |
| ProductService.ViewRatingMeaning | src/product/product.service.ts:189-191 | A product has an average exactly when it has reviews, and with ratings of 1 to 5 that average is in [1, 5]. |
| ProductService.GetAllProducts | src/product/product.service.ts:28-59 | Every product, keyed by id, each with its stored row and its average rating, and nothing else. |
| ProductService.CreateProduct | src/product/product.service.ts:146-174 | Ok iff some category has the given name, and that failure is NotFound. The new row goes under the next id and is linked to a category of that name. |
| ProductService.GetProductById | src/product/product.service.ts:176-197 | NotFound for a missing id. Otherwise the stored row with its average rating. |
| ProductService.Patched | src/product/product.service.ts:220-236 | Every given field replaces the stored one. The category changes only when one was looked up. |
| ProductService.UpdateProduct | src/product/product.service.ts:199-248 | Missing product → NotFound; a non-empty category name no category has → NotFound; in both cases nothing changes. Otherwise the row is patched, linked to a category of that name when one is named, and returned with its rating. |
| ProductService.DeleteProduct | src/product/product.service.ts:250-266 | NotFound for a missing product. Otherwise exactly that row is removed. |
| ProductService.GetProductsByCategory | src/product/product.service.ts:268-299 | Exactly the category's products, each with its rating. NotFound iff it has none. |
| AdviceService.IndexOfAdvice | src/advice/advice.service.ts:61-64 | The position of the review with that id, or none iff no review has it. |
| AdviceService.GetAll | src/advice/advice.service.ts:15-39 | The newest reviews first, min(30, count) of them, with strictly decreasing ids. |
| AdviceService.CreateAdvice | src/advice/advice.service.ts:41-58 | A missing product → BadRequest with nothing written. Otherwise the review is appended under the next id, with the caller as author. |
| AdviceService.UpdateAdvice | src/advice/advice.service.ts:60-83 | Missing → NotFound; not the author → Forbidden; a new product id that does not exist fails. In all of these, nothing changes. Otherwise the given fields replace the stored ones, while id and author stay. |
| AdviceService.Revised | src/advice/advice.service.ts:75-82 | Each given field replaces the stored one; id and author stay. `UpdateAdvice` writes it. |
| AdviceService.DeleteAdvice | src/advice/advice.service.ts:85-105 | The same guards as the update. Otherwise exactly that review is removed, and none with its id remains. |
| AdviceService.Removal | src/advice/advice.service.ts:100-104 | Removing one review keeps the rest in creation order and within the id bounds. |
| AdviceService.ReviewsNewestFirst | src/advice/advice.service.ts:118-124 | Exactly the product's reviews. |
| AdviceService.ReviewsAreNewestFirst | src/advice/advice.service.ts:118-124 | Over a table in creation order, the listing has strictly decreasing ids. |
| AdviceService.GetAdvicesByProduct | src/advice/advice.service.ts:107-134 | NotFound for a missing product. Otherwise its reviews only, newest first. |
| CategoryService.GetAllCategories | src/category/category.service.ts:13-20 | Every category, and their number. |
| CategoryService.InsertNewCategory | src/category/category.service.ts:22-29 | Always adds exactly one new row under a fresh id, even for a name already in use. |
| CategoryService.EditCategory | src/category/category.service.ts:31-53 | Zero id or empty name → BadRequest; a name any category has, its own included → Forbidden; a missing row fails. In all of these, nothing changes. Otherwise only the name changes. |
| CategoryService.DeleteCategory | src/category/category.service.ts:55-77 | Zero id → BadRequest; missing → Forbidden; otherwise exactly that row is removed. |
| ImageService.Folder | src/image/image.service.ts:26 | `products` iff the kind is `product`, and `profiles` otherwise. |
| ImageService.ImagePath | src/image/image.service.ts:27 | `uploads/<folder>/<file name>`. `ImagePathParts` and `ImagePathInjective` state its properties. |
| ImageService.ImagePathParts | src/image/image.service.ts:27 | The stored path is `uploads/`, then the 8-letter folder, then `/`, then the file name. |
| ImageService.ImagePathInjective | src/image/image.service.ts:27 | Different file names never share a path, and a product image never shares one with a profile image. |
| ImageService.SaveImage | src/image/image.service.ts:24-43 | A profile image is recorded on the caller's row, and a product image on the product of a non-zero entity id. Any other call records nothing. The path is returned on success. A missing row fails with nothing changed. |
| AdminGuard.CanActivate | src/auth/guard/admin.guard.ts:11-24 | Ok iff a user is present with role name `admin`, and Ok always carries `true`. No user → Unauthorized; any other role → Forbidden. |
| AdminGuard.NeverFalse | src/auth/guard/admin.guard.ts:11-24 | The guard never answers `false`. |
| AdminGuard.ExactRoleName | src/auth/guard/admin.guard.ts:19-23 | Any role name other than exactly `admin` is Forbidden. |
| AuthDto.IsPostalCode | src/auth/dto/signupDto.ts:30 | `/^[0-9]{5}$/`: exactly five ASCII digits. |
| AuthDto.IsFrenchPhone | src/auth/dto/signupDto.ts:41 | `/^(\+33|0)[1-9](\d{2}){4}$/`. `PhoneLength` and `PhoneByPositions` spell it out. |
| AuthDto.IsComplexPassword | src/auth/dto/resetPasswordConfirmationDto.ts:13-15 | Eight or more characters of the allowed class, with a lower-case letter, an upper-case letter, a digit and a special character among them. |
| AuthDto.SignupValid | src/auth/dto/signupDto.ts:4-54 | Every sign-up field against its decorators, names after trimming. |
| AuthDto.ResetPasswordConfirmationValid | src/auth/dto/resetPasswordConfirmationDto.ts:2-21 | E-mail length, the password length and complexity rule, and a non-empty code. |
| AuthDto.PhoneLength | src/auth/dto/signupDto.ts:38-42 | A valid phone has 10 characters (starting with `0`) or 12 (starting with `+33`). |
| AuthDto.PhoneByPositions | src/auth/dto/signupDto.ts:41 | The phone pattern, character by character: the prefix, a digit 1-9, then eight digits. The two directions are proved. |
| AuthDto.BlankNameRejected | src/auth/dto/signupDto.ts:5-15 | A name of whitespace only is rejected after trimming. |
| AuthDto.SignupNameIgnoresPadding | src/auth/dto/signupDto.ts:5-15 | A name is accepted iff its trimmed form is. |
| AuthDto.ForeignCharacterRejected | src/auth/dto/resetPasswordConfirmationDto.ts:13 | Any character outside the allowed class makes a reset password invalid. |
| UserDto.TrimOptional | src/user/dto/insert.user.dto.ts:8 | An absent name stays absent, and a present one is trimmed. |
| UserDto.InsertUserValid | src/user/dto/insert.user.dto.ts:4-70 | Each present field against its decorators, names after trimming, no password complexity. |
| UserDto.EmptyIsValid | src/user/dto/insert.user.dto.ts:4-70 | The empty insert request is valid. |
| UserDto.PaddingIgnored | src/user/dto/insert.user.dto.ts:5-15 | Trimming the names beforehand never changes whether an insert request is valid. |
| UserDto.BlankNameAccepted | src/user/dto/insert.user.dto.ts:5-9 | Unlike sign-up, a blank name is accepted. |
| UserDto.SimplePasswordAccepted | src/user/dto/insert.user.dto.ts:49-56 | With the complexity rule commented out, `aaaaaaaa` is accepted, although the reset confirmation would refuse it. |
| UserDto.PresentFieldsFollowSignupPatterns | src/user/dto/insert.user.dto.ts:27-42 | A present postal code matches the five-digit pattern, and a present phone has 10 or 12 characters. |
| UserDto.SignupPassesInsert | src/user/dto/insert.user.dto.ts:4-70 | The fields of any valid sign-up, all given, make a valid insert request. |
| AdviceDto.CreateAdviceValid | src/advice/dto/create.advice.dto.ts:3-17 | Content of 10 to 1000 characters, a whole rating from 1 to 5, a whole product id; all required. |
| AdviceDto.UpdateAdviceValid | src/advice/dto/update.advice.dto.ts:5-15 | The same rules, each applied only when the field is present. |
| AdviceDto.CreateIsUpdate | src/advice/dto/update.advice.dto.ts:5 | Every valid create request is a valid update request. |
| AdviceDto.EmptyUpdateValid | src/advice/dto/update.advice.dto.ts:5-15 | An empty update is valid; an empty create is not. |
| AdviceDto.RatingIsWholeStar | src/advice/dto/create.advice.dto.ts:9-12 | A valid rating is one of 1, 2, 3, 4 or 5. The two directions are proved. |
| AdviceDto.HalfStarRejected | src/advice/dto/create.advice.dto.ts:9-12 | 4.5 is refused. |
| AdviceDto.UpdateIsPartialCreate | src/advice/dto/update.advice.dto.ts:5-15 | `PartialType`: an update is valid iff filling its absent fields from any valid create request gives a valid create request. |
| CartDto.AddToCartValid | src/cart/dto/Add-to-Cart.dto.ts:4-10 | A whole positive product id and a whole quantity of at least 1. |
| CartDto.UpdateCartItemValid | src/cart/dto/UpdateCartDto.ts:4-7 | A whole quantity of at least 0. |
| CartDto.AddToCartBounds | src/cart/dto/Add-to-Cart.dto.ts:4-10 | A valid add request names a whole product id of at least 1 and a whole quantity of at least 1. |
| CartDto.ZeroOnlyForUpdate | src/cart/dto/UpdateCartDto.ts:5-7 | 0 is a valid update quantity but never a valid add quantity. |
| Text.Trim | src/auth/dto/signupDto.ts:8 | `trim` returns an infix of the input that neither starts nor ends with whitespace, and everything it cuts off is whitespace. |
| Text.TrimEmptyIffBlank | src/auth/dto/signupDto.ts:8 | A string trims to nothing iff it is all whitespace. |
| Text.TrimIdempotent | src/auth/dto/signupDto.ts:8 | Trimming twice is trimming once. |
| Text.LowerAll | src/product/product.service.ts:77 | Lower-casing keeps the length and maps each character separately. |
| Text.Split | src/product/product.service.ts:65 | `split` on one character gives at least one piece, and no piece contains the separator. |
| Text.JoinSplit | src/product/product.service.ts:86-88 | Joining the pieces of a split with the same separator gives the string back. |
| Paging.TotalPages | src/order/order.service.ts:61 | `Math.ceil(total / limit)` is the fewest pages of `limit` rows that hold all rows. |
| Paging.Page | src/order/order.service.ts:52-54 | A page is at most `limit` rows, taken consecutively from `(page − 1) × limit`. |
| Paging.PageNonEmptyIff | src/order/order.service.ts:52-61 | A page holds rows iff its number is within `totalPages`. |
| Paging.RowOnItsPage | src/order/order.service.ts:52-54 | Row `k` is entry `k mod limit` of page `k / limit + 1`. |

## Left out

- Floating-point arithmetic is not modelled; prices are exact reals. This covers `toFixed(2)`/`parseFloat` in the checkout order, `Math.round` of cents in the checkout session, `Decimal.toNumber`, and `parseFloat` of the stored amounts. decimal.js precision limits are out too.
- JavaScript `Number` on a price-range half is not modelled: it is a function parameter whose `None` stands for NaN.
- Case mapping is ASCII only. A string's length is its number of code points, whereas JavaScript counts UTF-16 units.
- The database's case-insensitive matching of the search's `contains` is left out; it is modelled as exact substring.
- `ProductSearch.GlobalSearch`: the database sorts. The model takes the product table already in the parsed `sort` order, as a precondition, and proves that the page keeps that order. Names are ordered by code point; the database's collation is not modelled.
- `ProductService.GetAllProducts`: the source's `orderBy { name: 'desc' }` is not modelled. The views are returned as a map keyed by id, which has no order.
- `OrderService.GetAllOrders`: the query has no `orderBy`, so the database's row order is unspecified. The model pages the table in id order.
- `OrderService.GetMyOrders` and the review listing take creation order to be id order.
- Concurrency is not modelled. In particular, two concurrent `updateOrderToPaid` calls are not, because each transaction is atomic in the model.
- `OrderService.UpdateOrderToPaid`: the re-read after the commit is taken to find the order, since the model has no concurrent delete.
- `createStripeOrder`, `getOrderById` and `getOrderSummary` in order.service.ts are not part of this model. They are read-only reports, or a variant of the session creation that the controllers do not reach in the modelled flow.
- `checkImageExists`, `getImagePath` and the upload directory creation in image.service.ts are file-system I/O.
- The WebSocket broadcasts of `product.gateway.ts`, the e-mail sending, the gateway itself, the webhook and the controllers: the gateway and the e-mail outcome are parameters.
- `@IsEmail` is not modelled: an e-mail field is only length-checked.
- `update-product.dto.ts` is not part of this model. An update is taken to carry the create fields, each optional.
- No `ValidationPipe` is registered (src/main.ts, src/app.module.ts). The DTO rules are therefore predicates with lemmas, and no service requires them. For example, `CartService.UpdateCartItem` accepts any quantity.
- `AdviceService.UpdateAdvice` models only the typed fields of the update. Extra body fields spread into the Prisma update would either be rejected by Prisma or written; either way they are out of scope.
- `AdviceService.UpdateAdvice` assumes a foreign key on the review's product: a product id naming no product makes the write fail.
- Referential actions on delete (`DeleteProduct`, `DeleteCategory`, `DeleteOrder` with their dependent rows) depend on a schema that is not part of this model. Only the deleted row is removed.
- `CheckoutService.CreateCheckoutSession`: the stored order-item `name` field is not kept, because the order item has no such column in the model.
- `CheckoutService.CreateCheckoutSession`: the `Invalid productId` BadRequest at lines 74-76 of checkout.service.ts is not modelled as an outcome. It is unreachable, because a missing or zero product id already makes the order write fail.
- `CheckoutService.CreateOrder`: the `user?.address?.street` lookups always give the empty string, since the stored address is a plain string.
- `Paging.Page`, `GetMyOrders`, `GetAllOrders` and `GlobalSearch` require a page and limit of at least 1. JavaScript's coercion of other values (0, negatives, NaN) into the `skip`/`take` of Prisma is not modelled.
- `ProductService.CreateProduct` and `ProductService.UpdateProduct`: `findFirst` without `orderBy` on the category name is an arbitrary choice among categories of that name. The contracts only say the product is linked to one of them.
