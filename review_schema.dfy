/**
 * The request payloads of the review routes (backend/app/schemas/review.py):
 * field constraints and the rating validators, which reject a rating outside
 * [1.0, 5.0] and otherwise round it to one decimal place.
 */
module ReviewSchema {
  import opened Wrappers
  import opened Rounding
  import opened ReviewRecord

  const MaxCommentLength := 1000

  /**
   * A JSON number, taken as the exact rational value num / den of the float it
   * parses to. Python's round(v, 1) rounds that exact value half-to-even.
   */
  datatype Decimal = Decimal(num: int, den: Pos)

  /** One failed field constraint; the payload's failures are reported in field order. */
  datatype FieldError = StallIdNotPositive | OrderIdNotPositive | RatingOutOfRange | CommentTooLong

  datatype RawReviewCreate = RawReviewCreate(stallId: int, orderId: Option<int>, rating: Decimal, comment: Option<string>)

  /** A create payload that passed validation, its rating already rounded. */
  datatype ReviewCreate = ReviewCreate(stallId: int, orderId: Option<int>, rating: Tenths, comment: Option<string>)

  datatype RawReviewUpdate = RawReviewUpdate(rating: Option<Decimal>, comment: Option<string>)

  /** An update payload that passed validation; an absent field is left alone. */
  datatype ReviewUpdate = ReviewUpdate(rating: Option<Tenths>, comment: Option<string>)

  /** 1.0 <= v <= 5.0 */
  predicate InRatingRange(v: Decimal)
  {
    v.den <= v.num <= 5 * v.den
  }

  predicate CommentFits(comment: Option<string>)
  {
    comment.None? || |comment.value| <= MaxCommentLength
  }

  /** `t` tenths is v rounded to one decimal place, ties to even. */
  predicate RoundedToTenth(v: Decimal, t: int)
  {
    NearestTiesEven(10 * v.num, v.den, t)
  }

  /** `validate_rating`: the range check, then round(v, 1), which stays in range. */
  function ValidateRating(v: Decimal): (r: Result<Tenths, FieldError>)
    ensures r.Ok? <==> InRatingRange(v)
    ensures r.Ok? ==> RoundedToTenth(v, r.value)
    ensures r.Err? ==> r.error == RatingOutOfRange
  {
    if v.num < v.den || v.num > 5 * v.den then
      Err(RatingOutOfRange)
    else
      RoundWithin(10 * v.num, v.den, 10, 50);
      Ok(RoundHalfEven(10 * v.num, v.den))
  }

  /** The failures of a create payload, in the order of its fields. */
  function CreateErrors(raw: RawReviewCreate): seq<FieldError>
  {
    (if raw.stallId > 0 then [] else [StallIdNotPositive])
    + (if raw.orderId.None? || raw.orderId.value > 0 then [] else [OrderIdNotPositive])
    + (if ValidateRating(raw.rating).Ok? then [] else [RatingOutOfRange])
    + (if CommentFits(raw.comment) then [] else [CommentTooLong])
  }

  /** Parse a `ReviewCreate`: stall_id > 0, order_id absent or > 0, rating in range, comment fits. */
  function ValidateCreate(raw: RawReviewCreate): (r: Result<ReviewCreate, seq<FieldError>>)
    ensures r.Ok? <==>
      raw.stallId > 0 && (raw.orderId.Some? ==> raw.orderId.value > 0)
      && InRatingRange(raw.rating) && CommentFits(raw.comment)
    ensures r.Ok? ==>
      && r.value.stallId == raw.stallId && r.value.orderId == raw.orderId
      && RoundedToTenth(raw.rating, r.value.rating) && r.value.comment == raw.comment
    ensures r.Err? ==>
      && r.error != []
      && (StallIdNotPositive in r.error <==> raw.stallId <= 0)
      && (OrderIdNotPositive in r.error <==> raw.orderId.Some? && raw.orderId.value <= 0)
      && (RatingOutOfRange in r.error <==> !InRatingRange(raw.rating))
      && (CommentTooLong in r.error <==> !CommentFits(raw.comment))
  {
    var errors := CreateErrors(raw);
    if errors == [] then
      Ok(ReviewCreate(raw.stallId, raw.orderId, ValidateRating(raw.rating).value, raw.comment))
    else
      Err(errors)
  }

  /** The failures of an update payload, in the order of its fields. */
  function UpdateErrors(raw: RawReviewUpdate): seq<FieldError>
  {
    (if raw.rating.None? || ValidateRating(raw.rating.value).Ok? then [] else [RatingOutOfRange])
    + (if CommentFits(raw.comment) then [] else [CommentTooLong])
  }

  /** Parse a `ReviewUpdate`: both fields optional; a present rating is range-checked and rounded. */
  function ValidateUpdate(raw: RawReviewUpdate): (r: Result<ReviewUpdate, seq<FieldError>>)
    ensures r.Ok? <==> (raw.rating.Some? ==> InRatingRange(raw.rating.value)) && CommentFits(raw.comment)
    ensures r.Ok? ==>
      && (raw.rating.None? <==> r.value.rating.None?)
      && (raw.rating.Some? ==> RoundedToTenth(raw.rating.value, r.value.rating.value))
      && r.value.comment == raw.comment
    ensures r.Err? ==>
      && r.error != []
      && (RatingOutOfRange in r.error <==> raw.rating.Some? && !InRatingRange(raw.rating.value))
      && (CommentTooLong in r.error <==> !CommentFits(raw.comment))
  {
    var errors := UpdateErrors(raw);
    if errors != [] then
      Err(errors)
    else if raw.rating.None? then
      Ok(ReviewUpdate(None, raw.comment))
    else
      Ok(ReviewUpdate(Some(ValidateRating(raw.rating.value).value), raw.comment))
  }

  /** The boundaries 1.0 and 5.0 are accepted unchanged; 0.5 and 5.5 are rejected. */
  lemma RatingBoundaries()
    ensures ValidateRating(Decimal(1, 1)) == Ok(10)
    ensures ValidateRating(Decimal(5, 1)) == Ok(50)
    ensures ValidateRating(Decimal(1, 2)) == Err(RatingOutOfRange)
    ensures ValidateRating(Decimal(11, 2)) == Err(RatingOutOfRange)
  {
  }

  /** Exact ties go to the even tenth: 4.25 is stored as 4.2 and 4.75 as 4.8. */
  lemma RatingTiesToEven()
    ensures ValidateRating(Decimal(17, 4)) == Ok(42)
    ensures ValidateRating(Decimal(19, 4)) == Ok(48)
  {
  }

  /** An accepted rating is the unique nearest tenth with ties to even (4.25 becomes 4.2, 4.75 becomes 4.8). */
  lemma {:induction false} ValidatedRatingIsPythonRound(v: Decimal, t: int)
    requires InRatingRange(v) && RoundedToTenth(v, t)
    ensures ValidateRating(v) == Ok(t)
  {
    RoundHalfEvenUnique(10 * v.num, v.den, t);
  }
}
