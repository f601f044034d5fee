/** The review ("advice") requests. JSON numbers are `real`, so `@IsInt` is a real
    check; an absent field is `None`. */
module AdviceDto {
  import opened Common

  datatype AdviceRequest = AdviceRequest(content: Option<string>, rating: Option<real>, productId: Option<real>)

  predicate ContentOk(c: string) { c != "" && 10 <= |c| <= 1000 }
  predicate RatingOk(r: real) { IsInteger(r) && 1.0 <= r <= 5.0 }

  /** CreateAdviceDto: every field required. */
  predicate CreateAdviceValid(d: AdviceRequest)
  {
    && d.content.Some? && ContentOk(d.content.value)
    && d.rating.Some? && RatingOk(d.rating.value)
    && d.productId.Some? && IsInteger(d.productId.value)
  }

  /** UpdateAdviceDto = PartialType(CreateAdviceDto): the same rules, each only when present. */
  predicate UpdateAdviceValid(d: AdviceRequest)
  {
    && (d.content.None? || ContentOk(d.content.value))
    && (d.rating.None? || RatingOk(d.rating.value))
    && (d.productId.None? || IsInteger(d.productId.value))
  }

  /** Every valid create request is a valid update request. */
  lemma CreateIsUpdate(d: AdviceRequest)
    requires CreateAdviceValid(d)
    ensures UpdateAdviceValid(d)
  {
  }

  /** An update that names no field at all is valid. */
  lemma EmptyUpdateValid()
    ensures UpdateAdviceValid(AdviceRequest(None, None, None))
    ensures !CreateAdviceValid(AdviceRequest(None, None, None))
  {
  }

  /** A valid rating is one of the five whole stars; 4.5 is refused. */
  lemma RatingIsWholeStar(r: real)
    ensures RatingOk(r) <==> r == 1.0 || r == 2.0 || r == 3.0 || r == 4.0 || r == 5.0
  {
    if RatingOk(r) {
      var f := r.Floor;
      assert 1 <= f <= 5;
    }
  }

  lemma HalfStarRejected()
    ensures !RatingOk(4.5)
  {
    assert 4.5.Floor == 4;
  }

  /** Each field of `d` when present, of `base` otherwise. */
  function Filled(d: AdviceRequest, base: AdviceRequest): AdviceRequest
  {
    AdviceRequest(
      if d.content.Some? then d.content else base.content,
      if d.rating.Some? then d.rating else base.rating,
      if d.productId.Some? then d.productId else base.productId)
  }

  /** `PartialType`: an update is valid iff completing its absent fields from a valid
      create request gives a valid create request. */
  lemma UpdateIsPartialCreate(d: AdviceRequest, base: AdviceRequest)
    requires CreateAdviceValid(base)
    ensures UpdateAdviceValid(d) <==> CreateAdviceValid(Filled(d, base))
  {
  }
}
