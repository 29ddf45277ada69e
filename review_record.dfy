/**
 * The `reviews` table row (backend/app/models/review.py) and the parts of the
 * order row that review creation reads.
 */
module ReviewRecord {
  import opened Wrappers

  /** A stored review rating in tenths of a star: 10 stands for 1.0 and 50 for 5.0. */
  type Tenths = t: int | 10 <= t <= 50 witness 10

  /** Only COMPLETED matters to reviews; every other order status is kept by name. */
  datatype OrderStatus = Completed | Other(name: string)

  /** The columns of an order that review creation consults. */
  datatype Order = Order(userId: int, stallId: int, status: OrderStatus)

  /**
   * One review. user_id, stall_id and rating are mandatory columns; order_id and
   * comment may be NULL; a review links to at most one order. Timestamps are
   * abstract clock readings.
   */
  datatype Review = Review(
    id: int,
    userId: int,
    stallId: int,
    orderId: Option<int>,
    rating: Tenths,
    comment: Option<string>,
    createdAt: int,
    updatedAt: int)

  /**
   * The row after an update that assigns `rating` and `comment` where they are
   * present. The ORM refreshes updated_at only when the flush writes a changed
   * column; created_at and the identifying columns never change.
   */
  function Patched(r: Review, rating: Option<Tenths>, comment: Option<string>, now: int): (p: Review)
    ensures p.id == r.id && p.userId == r.userId && p.stallId == r.stallId
    ensures p.orderId == r.orderId && p.createdAt == r.createdAt
    ensures rating.Some? ==> p.rating == rating.value
    ensures rating.None? ==> p.rating == r.rating
    ensures comment.Some? ==> p.comment == comment
    ensures comment.None? ==> p.comment == r.comment
    ensures p.updatedAt == if p.rating == r.rating && p.comment == r.comment then r.updatedAt else now
  {
    var newRating := if rating.Some? then rating.value else r.rating;
    var newComment := if comment.Some? then comment else r.comment;
    var written := r.(rating := newRating, comment := newComment);
    if written == r then r else written.(updatedAt := now)
  }

  /** An update with neither field present leaves the row exactly as it was. */
  lemma EmptyPatchIsIdentity(r: Review, now: int)
    ensures Patched(r, None, None, now) == r
  {
  }

  /**
   * Repeating the same update is a no-op: the second flush writes no changed
   * column, so even updated_at keeps the value of the first.
   */
  lemma PatchedIdempotent(r: Review, rating: Option<Tenths>, comment: Option<string>, now: int, later: int)
    ensures Patched(Patched(r, rating, comment, now), rating, comment, later) == Patched(r, rating, comment, now)
  {
  }
}
