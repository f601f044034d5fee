/** The cart requests: add a product (`AddToCartDto`) and change a quantity (`UpdateCartItemDto`). */
module CartDto {
  import opened Common

  datatype AddToCartRequest = AddToCartRequest(productId: real, quantity: real)

  /** `@IsInt @IsPositive productId`, `@IsInt @Min(1) quantity`. */
  predicate AddToCartValid(d: AddToCartRequest)
  {
    IsInteger(d.productId) && d.productId > 0.0 && IsInteger(d.quantity) && d.quantity >= 1.0
  }

  /** `@IsInt @Min(0) quantity`. */
  predicate UpdateCartItemValid(quantity: real)
  {
    IsInteger(quantity) && quantity >= 0.0
  }

  /** A valid add request names a product id of at least 1 and adds at least one unit,
      both whole numbers. */
  lemma AddToCartBounds(d: AddToCartRequest)
    requires AddToCartValid(d)
    ensures d.productId.Floor >= 1 && d.productId.Floor as real == d.productId
    ensures d.quantity.Floor >= 1 && d.quantity.Floor as real == d.quantity
  {
  }

  /** Zero is a valid update quantity (it deletes the line) but not a valid add quantity. */
  lemma ZeroOnlyForUpdate(p: real)
    ensures UpdateCartItemValid(0.0) && !AddToCartValid(AddToCartRequest(p, 0.0))
  {
  }
}
