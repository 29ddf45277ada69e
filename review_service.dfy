/**
 * The review routes of backend/app/routes/reviews.py over an in-memory store:
 * the reviews table, the stall table (its rating column, keyed by stall id)
 * and the read-only orders table. Each route is one sequential step.
 */
module ReviewService {
  import opened Wrappers
  import opened Rounding
  import opened ReviewRecord
  import opened ReviewSchema
  import opened RatingAggregate
  import opened ReviewListing

  /** The route failures; `Invalid` stands for the payload's validation response. */
  datatype ReviewError =
    | Invalid(fields: seq<FieldError>)
    | StallNotFound
    | OrderNotFound
    | OrderFromOtherStall
    | OrderNotCompleted
    | OrderAlreadyReviewed
    | StallAlreadyReviewed
    | ReviewNotFound
    | NotAuthorized

  /** `filter(Review.stall_id == stallId)`, in store order. */
  function ReviewsFor(rs: seq<Review>, stallId: int): (s: seq<Review>)
    ensures forall x :: x in s <==> x in rs && x.stallId == stallId
  {
    if rs == [] then []
    else
      var last := rs[|rs| - 1];
      assert rs == rs[..|rs| - 1] + [last];
      ReviewsFor(rs[..|rs| - 1], stallId) + (if last.stallId == stallId then [last] else [])
  }

  /** `filter(Review.user_id == userId)`, in store order. */
  function ReviewsBy(rs: seq<Review>, userId: int): (s: seq<Review>)
    ensures forall x :: x in s <==> x in rs && x.userId == userId
  {
    if rs == [] then []
    else
      var last := rs[|rs| - 1];
      assert rs == rs[..|rs| - 1] + [last];
      ReviewsBy(rs[..|rs| - 1], userId) + (if last.userId == userId then [last] else [])
  }

  function Ratings(rs: seq<Review>): seq<Tenths>
  {
    seq(|rs|, k requires 0 <= k < |rs| => rs[k].rating)
  }

  /** The rating update_stall_rating gives a stall for the reviews `rs`. */
  function StallRatingOf(rs: seq<Review>, stallId: int): int
  {
    StallRating(Ratings(ReviewsFor(rs, stallId)))
  }

  /** The first position holding review `id`, as `.filter(Review.id == id).first()` finds it. */
  function IndexOfId(rs: seq<Review>, id: int): (r: Option<nat>)
    ensures r.Some? ==> r.value < |rs| && rs[r.value].id == id
    ensures r.Some? ==> forall j :: 0 <= j < r.value ==> rs[j].id != id
    ensures r.None? ==> forall j :: 0 <= j < |rs| ==> rs[j].id != id
  {
    if rs == [] then None
    else if rs[0].id == id then Some(0)
    else
      match IndexOfId(rs[1..], id)
      case None => None
      case Some(k) => Some(k + 1)
  }

  // ---------------------------------------------------------------------------
  // Eligibility of a new review
  // ---------------------------------------------------------------------------

  /** `Order.id == orderId AND Order.user_id == userId` finds a row. */
  predicate OwnsOrder(orders: map<int, Order>, orderId: int, userId: int)
  {
    orderId in orders && orders[orderId].userId == userId
  }

  /** Some review already references the order. */
  predicate OrderReviewed(rs: seq<Review>, orderId: int)
  {
    exists i | 0 <= i < |rs| :: rs[i].orderId == Some(orderId)
  }

  /** The user already has a review of the stall that is not linked to an order. */
  predicate HasStandaloneReview(rs: seq<Review>, userId: int, stallId: int)
  {
    exists i | 0 <= i < |rs| :: rs[i].userId == userId && rs[i].stallId == stallId && rs[i].orderId.None?
  }

  /** An order link is allowed: the user's own completed order from the same stall. */
  ghost predicate LinkValid(orders: map<int, Order>, userId: int, stallId: int, orderId: Option<int>)
  {
    orderId.Some? ==>
      && OwnsOrder(orders, orderId.value, userId)
      && orders[orderId.value].stallId == stallId
      && orders[orderId.value].status == Completed
  }

  /** Existing review `x` does not clash with a review of (userId, stallId, orderId). */
  ghost predicate NotDuplicate(x: Review, userId: int, stallId: int, orderId: Option<int>)
  {
    && (orderId.Some? ==> x.orderId != orderId)
    && (orderId.None? && x.orderId.None? ==> x.userId != userId || x.stallId != stallId)
  }

  /** The invariants of the reviews table allow adding a review with these keys. */
  ghost predicate Admissible(rs: seq<Review>, stalls: set<int>, orders: map<int, Order>, userId: int, p: ReviewCreate)
  {
    && p.stallId in stalls
    && LinkValid(orders, userId, p.stallId, p.orderId)
    && forall i :: 0 <= i < |rs| ==> NotDuplicate(rs[i], userId, p.stallId, p.orderId)
  }

  /**
   * The guards of create_review, in their order: the stall exists; for a linked
   * review the order is the user's, from this stall, completed and not yet
   * reviewed; for a standalone review the user has no standalone review of the
   * stall. The request passes exactly when the new review is admissible.
   */
  function CheckCreate(rs: seq<Review>, stalls: set<int>, orders: map<int, Order>, userId: int, p: ReviewCreate): (r: Result<(), ReviewError>)
    ensures r.Ok? <==> Admissible(rs, stalls, orders, userId, p)
    ensures r == Err(StallNotFound) <==> p.stallId !in stalls
    ensures r == Err(OrderNotFound) <==>
      p.stallId in stalls && p.orderId.Some? && !OwnsOrder(orders, p.orderId.value, userId)
    ensures r == Err(OrderFromOtherStall) <==>
      p.stallId in stalls && p.orderId.Some? && OwnsOrder(orders, p.orderId.value, userId)
      && orders[p.orderId.value].stallId != p.stallId
    ensures r == Err(OrderNotCompleted) <==>
      p.stallId in stalls && p.orderId.Some? && OwnsOrder(orders, p.orderId.value, userId)
      && orders[p.orderId.value].stallId == p.stallId && orders[p.orderId.value].status != Completed
    ensures r == Err(OrderAlreadyReviewed) <==>
      p.stallId in stalls && p.orderId.Some? && OwnsOrder(orders, p.orderId.value, userId)
      && orders[p.orderId.value].stallId == p.stallId && orders[p.orderId.value].status == Completed
      && OrderReviewed(rs, p.orderId.value)
    ensures r == Err(StallAlreadyReviewed) <==>
      p.stallId in stalls && p.orderId.None? && HasStandaloneReview(rs, userId, p.stallId)
  {
    if p.stallId !in stalls then Err(StallNotFound)
    else if p.orderId.Some? then
      var o := p.orderId.value;
      if !OwnsOrder(orders, o, userId) then Err(OrderNotFound)
      else if orders[o].stallId != p.stallId then Err(OrderFromOtherStall)
      else if orders[o].status != Completed then Err(OrderNotCompleted)
      else if OrderReviewed(rs, o) then Err(OrderAlreadyReviewed)
      else Ok(())
    else if HasStandaloneReview(rs, userId, p.stallId) then Err(StallAlreadyReviewed)
    else Ok(())
  }

  /** Orders of other users are invisible: linking one reports "Order not found", never a mismatch. */
  lemma OtherUsersOrderNotFound(rs: seq<Review>, stalls: set<int>, orders: map<int, Order>, userId: int, p: ReviewCreate)
    requires p.stallId in stalls && p.orderId.Some? && p.orderId.value in orders
    requires orders[p.orderId.value].userId != userId
    ensures CheckCreate(rs, stalls, orders, userId, p) == Err(OrderNotFound)
  {
  }

  /**
   * Linked and standalone reviews are independent: when every review the user
   * has of the stall is linked to an order, a standalone review is still allowed.
   */
  lemma LinkedReviewsDoNotBlockStandalone(rs: seq<Review>, stalls: set<int>, orders: map<int, Order>, userId: int, p: ReviewCreate)
    requires p.stallId in stalls && p.orderId.None?
    requires forall i :: 0 <= i < |rs| && rs[i].userId == userId && rs[i].stallId == p.stallId ==> rs[i].orderId.Some?
    ensures CheckCreate(rs, stalls, orders, userId, p) == Ok(())
  {
  }

  // ---------------------------------------------------------------------------
  // Invariants of the reviews table
  // ---------------------------------------------------------------------------

  /** A stored review: id below the next id, stall exists, order link valid. */
  ghost predicate ReviewOk(x: Review, stalls: set<int>, orders: map<int, Order>, nextId: int)
  {
    x.id < nextId && x.stallId in stalls && LinkValid(orders, x.userId, x.stallId, x.orderId)
  }

  /** An earlier row `a` and a later row `b`: increasing ids, no duplicate per order or per standalone pair. */
  ghost predicate Compatible(a: Review, b: Review)
  {
    a.id < b.id && NotDuplicate(a, b.userId, b.stallId, b.orderId)
  }

  ghost predicate WellFormed(rs: seq<Review>, stalls: set<int>, orders: map<int, Order>, nextId: int)
  {
    && (forall i :: 0 <= i < |rs| ==> ReviewOk(rs[i], stalls, orders, nextId))
    && (forall i, j :: 0 <= i < j < |rs| ==> Compatible(rs[i], rs[j]))
  }

  /** The same row except possibly its rating, comment and updated_at. */
  ghost predicate SameKeys(a: Review, b: Review)
  {
    a.id == b.id && a.userId == b.userId && a.stallId == b.stallId && a.orderId == b.orderId
  }

  lemma AppendKeepsWellFormed(rs: seq<Review>, stalls: set<int>, orders: map<int, Order>, nextId: int, x: Review)
    requires WellFormed(rs, stalls, orders, nextId)
    requires x.id == nextId && x.stallId in stalls && LinkValid(orders, x.userId, x.stallId, x.orderId)
    requires forall i :: 0 <= i < |rs| ==> NotDuplicate(rs[i], x.userId, x.stallId, x.orderId)
    ensures WellFormed(rs + [x], stalls, orders, nextId + 1)
  {
    var s := rs + [x];
    forall i, j | 0 <= i < j < |s| ensures Compatible(s[i], s[j]) {
      if j < |rs| {
        assert s[i] == rs[i] && s[j] == rs[j];
      } else {
        assert s[i] == rs[i] && s[j] == x;
      }
    }
  }

  lemma ReplaceKeepsWellFormed(rs: seq<Review>, stalls: set<int>, orders: map<int, Order>, nextId: int, i: nat, p: Review)
    requires WellFormed(rs, stalls, orders, nextId)
    requires i < |rs| && SameKeys(rs[i], p)
    ensures WellFormed(rs[i := p], stalls, orders, nextId)
  {
    var s := rs[i := p];
    forall a, b | 0 <= a < b < |s| ensures Compatible(s[a], s[b]) {
      assert Compatible(rs[a], rs[b]);
    }
  }

  lemma RemoveKeepsWellFormed(rs: seq<Review>, stalls: set<int>, orders: map<int, Order>, nextId: int, i: nat)
    requires WellFormed(rs, stalls, orders, nextId)
    requires i < |rs|
    ensures WellFormed(rs[..i] + rs[i + 1..], stalls, orders, nextId)
  {
    var s := rs[..i] + rs[i + 1..];
    forall a | 0 <= a < |s| ensures s[a] == rs[if a < i then a else a + 1] {
    }
    forall a, b | 0 <= a < b < |s| ensures Compatible(s[a], s[b]) {
      assert Compatible(rs[if a < i then a else a + 1], rs[if b < i then b else b + 1]);
    }
  }

  /** The review filter distributes over concatenation. */
  lemma {:induction false} ReviewsForConcat(a: seq<Review>, b: seq<Review>, stallId: int)
    ensures ReviewsFor(a + b, stallId) == ReviewsFor(a, stallId) + ReviewsFor(b, stallId)
  {
    if b == [] {
      assert a + b == a;
    } else {
      var last := b[|b| - 1];
      assert (a + b)[..|a + b| - 1] == a + b[..|b| - 1];
      ReviewsForConcat(a, b[..|b| - 1], stallId);
    }
  }

  /** On one review the stall filter keeps it exactly when it is of that stall. */
  lemma ReviewsForOne(x: Review, stallId: int)
    ensures ReviewsFor([x], stallId) == if x.stallId == stallId then [x] else []
  {
    assert [x][..0] == [];
  }

  /** The stall filter keeps each review of the stall as often as the table holds it, and no other review. */
  lemma {:induction false} ReviewsForCounts(rs: seq<Review>, stallId: int)
    ensures forall x :: multiset(ReviewsFor(rs, stallId))[x] == if x.stallId == stallId then multiset(rs)[x] else 0
  {
    if rs != [] {
      var front, last := rs[..|rs| - 1], rs[|rs| - 1];
      assert rs == front + [last];
      ReviewsForCounts(front, stallId);
    }
  }

  /** `filter(Review.user_id == userId)` distributes over concatenation. */
  lemma {:induction false} ReviewsByConcat(a: seq<Review>, b: seq<Review>, userId: int)
    ensures ReviewsBy(a + b, userId) == ReviewsBy(a, userId) + ReviewsBy(b, userId)
  {
    if b == [] {
      assert a + b == a;
    } else {
      assert (a + b)[..|a + b| - 1] == a + b[..|b| - 1];
      ReviewsByConcat(a, b[..|b| - 1], userId);
    }
  }

  /** On one review the user filter keeps it exactly when it is by that user. */
  lemma ReviewsByOne(x: Review, userId: int)
    ensures ReviewsBy([x], userId) == if x.userId == userId then [x] else []
  {
    assert [x][..0] == [];
  }

  /** The user filter keeps each review of the user as often as the table holds it, and no other review. */
  lemma {:induction false} ReviewsByCounts(rs: seq<Review>, userId: int)
    ensures forall x :: multiset(ReviewsBy(rs, userId))[x] == if x.userId == userId then multiset(rs)[x] else 0
  {
    if rs != [] {
      var front, last := rs[..|rs| - 1], rs[|rs| - 1];
      assert rs == front + [last];
      ReviewsByCounts(front, userId);
    }
  }

  /** Adding a review leaves every other stall's review list as it was. */
  lemma AppendOtherStall(rs: seq<Review>, x: Review)
    ensures forall s :: s != x.stallId ==> ReviewsFor(rs + [x], s) == ReviewsFor(rs, s)
  {
    forall s | s != x.stallId ensures ReviewsFor(rs + [x], s) == ReviewsFor(rs, s) {
      ReviewsForConcat(rs, [x], s);
      assert ReviewsFor([x], s) == ReviewsFor([], s) + [];
    }
  }

  /** Rewriting a review without moving it to another stall leaves every other stall's review list as it was. */
  lemma ReplaceOtherStall(rs: seq<Review>, i: nat, p: Review)
    requires i < |rs| && p.stallId == rs[i].stallId
    ensures forall s :: s != p.stallId ==> ReviewsFor(rs[i := p], s) == ReviewsFor(rs, s)
  {
    var front, back := rs[..i], rs[i + 1..];
    assert rs == (front + [rs[i]]) + back;
    assert rs[i := p] == (front + [p]) + back;
    AppendOtherStall(front, rs[i]);
    AppendOtherStall(front, p);
    forall s | s != p.stallId ensures ReviewsFor(rs[i := p], s) == ReviewsFor(rs, s) {
      ReviewsForConcat(front + [rs[i]], back, s);
      ReviewsForConcat(front + [p], back, s);
    }
  }

  /** Deleting a review leaves every other stall's review list as it was. */
  lemma RemoveOtherStall(rs: seq<Review>, i: nat)
    requires i < |rs|
    ensures forall s :: s != rs[i].stallId ==> ReviewsFor(rs[..i] + rs[i + 1..], s) == ReviewsFor(rs, s)
  {
    var front, back := rs[..i], rs[i + 1..];
    assert rs == (front + [rs[i]]) + back;
    AppendOtherStall(front, rs[i]);
    forall s | s != rs[i].stallId ensures ReviewsFor(front + back, s) == ReviewsFor(rs, s) {
      ReviewsForConcat(front + [rs[i]], back, s);
      ReviewsForConcat(front, back, s);
    }
  }

  /** Every stored stall rating is the one its reviews give. */
  ghost predicate RatingsMatch(ratings: map<int, int>, rs: seq<Review>)
  {
    forall s :: s in ratings ==> ratings[s] == StallRatingOf(rs, s)
  }

  /**
   * A write that touches one stall's reviews only, followed by recomputing
   * that stall's rating, leaves every stored rating matching its reviews.
   */
  lemma RecomputeKeepsMatch(ratings: map<int, int>, before: seq<Review>, after: seq<Review>, stallId: int)
    requires RatingsMatch(ratings, before)
    requires forall s :: s != stallId ==> ReviewsFor(after, s) == ReviewsFor(before, s)
    ensures RatingsMatch(if stallId in ratings then ratings[stallId := StallRatingOf(after, stallId)] else ratings, after)
  {
    var next := if stallId in ratings then ratings[stallId := StallRatingOf(after, stallId)] else ratings;
    forall s | s in next ensures next[s] == StallRatingOf(after, s) {
      if s != stallId {
        assert ReviewsFor(after, s) == ReviewsFor(before, s);
      }
    }
  }

  /** With unique ids the first row holding an id is the only one. */
  lemma IdsAreUnique(rs: seq<Review>, stalls: set<int>, orders: map<int, Order>, nextId: int, i: nat)
    requires WellFormed(rs, stalls, orders, nextId) && i < |rs|
    ensures IndexOfId(rs, rs[i].id) == Some(i)
    ensures forall j :: 0 <= j < |rs| && j != i ==> rs[j].id != rs[i].id
  {
    forall j | 0 <= j < |rs| && j != i ensures rs[j].id != rs[i].id {
      if j < i {
        assert Compatible(rs[j], rs[i]);
      } else {
        assert Compatible(rs[i], rs[j]);
      }
    }
  }

  /** With unique ids, deleting a row leaves no row with its id, so looking the id up finds nothing. */
  lemma RemovedIdGone(rs: seq<Review>, stalls: set<int>, orders: map<int, Order>, nextId: int, i: nat)
    requires WellFormed(rs, stalls, orders, nextId) && i < |rs|
    ensures forall x :: x in rs[..i] + rs[i + 1..] ==> x.id != rs[i].id
    ensures IndexOfId(rs[..i] + rs[i + 1..], rs[i].id).None?
  {
    IdsAreUnique(rs, stalls, orders, nextId, i);
    var s := rs[..i] + rs[i + 1..];
    forall x | x in s ensures x.id != rs[i].id {
      var j :| 0 <= j < |s| && s[j] == x;
      assert s[j] == rs[if j < i then j else j + 1];
    }
    assert forall k :: 0 <= k < |s| ==> s[k].id != rs[i].id;
  }

  // ---------------------------------------------------------------------------
  // The store
  // ---------------------------------------------------------------------------

  class ReviewStore {
    /** The reviews table, in insertion order. */
    var reviews: seq<Review>
    /** The stall table: each existing stall's rating column, in tenths (0 means 0.0). */
    var stallRatings: map<int, int>
    /** The orders table, read-only here. */
    const orders: map<int, Order>
    /** The id the next inserted review receives. */
    var nextId: int

    ghost predicate Valid()
      reads this
    {
      WellFormed(reviews, stallRatings.Keys, orders, nextId)
    }

    /** Every stall's stored rating is the one recomputed from its current reviews. */
    ghost predicate RatingsConsistent()
      reads this
    {
      RatingsMatch(stallRatings, reviews)
    }

    /** An empty reviews table over the given stalls (with their stored ratings) and orders. */
    constructor (stalls: map<int, int>, orderTable: map<int, Order>)
      ensures Valid()
      ensures reviews == [] && stallRatings == stalls && orders == orderTable && nextId == 1
    {
      reviews := [];
      stallRatings := stalls;
      orders := orderTable;
      nextId := 1;
    }

    /**
     * update_stall_rating: recompute the stall's rating from ALL its reviews;
     * 0.0 when it has none; a missing stall row is left alone. Since the new
     * value depends only on the reviews, which it does not change, running it
     * twice gives the same rating as running it once.
     */
    method UpdateStallRating(stallId: int)
      modifies this
      ensures reviews == old(reviews) && nextId == old(nextId)
      ensures stallRatings ==
        if stallId in old(stallRatings) then old(stallRatings)[stallId := StallRatingOf(reviews, stallId)]
        else old(stallRatings)
    {
      var rs := ReviewsFor(reviews, stallId);
      if rs != [] {
        var ratings := Ratings(rs);
        var average := RoundHalfEven(Sum(ratings), |ratings|);
        if stallId in stallRatings {
          stallRatings := stallRatings[stallId := average];
        }
      } else {
        if stallId in stallRatings {
          stallRatings := stallRatings[stallId := 0];
        }
      }
    }

    /** get_review: the review with that id, or "Review not found". */
    function GetReview(id: int): (r: Result<Review, ReviewError>)
      reads this
      ensures r.Ok? <==> exists i :: 0 <= i < |reviews| && reviews[i].id == id
      ensures r.Ok? ==> r.value in reviews && r.value.id == id
      ensures r.Err? ==> r.error == ReviewNotFound
    {
      match IndexOfId(reviews, id)
      case None => Err(ReviewNotFound)
      case Some(i) => Ok(reviews[i])
    }

    /**
     * create_review: validate the payload, run the guards of CheckCreate, then
     * insert the review (owned by the caller, both timestamps `now`) and
     * recompute its stall's rating. Any failure happens before any write.
     */
    method CreateReview(userId: int, payload: RawReviewCreate, now: int) returns (r: Result<Review, ReviewError>)
      requires Valid()
      modifies this
      ensures Valid()
      ensures ValidateCreate(payload).Err? ==> r == Err(Invalid(ValidateCreate(payload).error))
      ensures ValidateCreate(payload).Ok? ==>
        var check := CheckCreate(old(reviews), old(stallRatings).Keys, orders, userId, ValidateCreate(payload).value);
        check.Err? ==> r == Err(check.error)
      ensures r.Err? ==> reviews == old(reviews) && stallRatings == old(stallRatings) && nextId == old(nextId)
      ensures r.Ok? ==>
        && ValidateCreate(payload).Ok?
        && var p := ValidateCreate(payload).value;
        && CheckCreate(old(reviews), old(stallRatings).Keys, orders, userId, p).Ok?
        && r.value == Review(old(nextId), userId, p.stallId, p.orderId, p.rating, p.comment, now, now)
        && reviews == old(reviews) + [r.value]
        && nextId == old(nextId) + 1
        && stallRatings == old(stallRatings)[p.stallId := StallRatingOf(reviews, p.stallId)]
      ensures r.Ok? <==> (ValidateCreate(payload).Ok?
        && CheckCreate(old(reviews), old(stallRatings).Keys, orders, userId, ValidateCreate(payload).value).Ok?)
      ensures r.Ok? ==> GetReview(r.value.id) == Ok(r.value)
      ensures old(RatingsConsistent()) ==> RatingsConsistent()
    {
      var validated := ValidateCreate(payload);
      if validated.Err? {
        return Err(Invalid(validated.error));
      }
      var p := validated.value;
      var check := CheckCreate(reviews, stallRatings.Keys, orders, userId, p);
      if check.Err? {
        return Err(check.error);
      }
      var review := Review(nextId, userId, p.stallId, p.orderId, p.rating, p.comment, now, now);
      AppendKeepsWellFormed(reviews, stallRatings.Keys, orders, nextId, review);
      ghost var before := reviews;
      ghost var ratingsBefore := stallRatings;
      ghost var wasConsistent := RatingsConsistent();
      reviews := reviews + [review];
      nextId := nextId + 1;
      UpdateStallRating(p.stallId);
      r := Ok(review);
      IdsAreUnique(reviews, stallRatings.Keys, orders, nextId, |reviews| - 1);
      if wasConsistent {
        AppendOtherStall(before, review);
        RecomputeKeepsMatch(ratingsBefore, before, reviews, p.stallId);
      }
    }

    /**
     * update_review: validate the patch; the review must exist and belong to
     * the caller; assign the fields that are present and recompute the stall's
     * rating (even when only the comment changed).
     */
    method UpdateReview(userId: int, reviewId: int, payload: RawReviewUpdate, now: int) returns (r: Result<Review, ReviewError>)
      requires Valid()
      modifies this
      ensures Valid()
      ensures ValidateUpdate(payload).Err? ==> r == Err(Invalid(ValidateUpdate(payload).error))
      ensures ValidateUpdate(payload).Ok? && IndexOfId(old(reviews), reviewId).None? ==> r == Err(ReviewNotFound)
      ensures (ValidateUpdate(payload).Ok? && IndexOfId(old(reviews), reviewId).Some?
        && old(reviews)[IndexOfId(old(reviews), reviewId).value].userId != userId) ==> r == Err(NotAuthorized)
      ensures r.Err? ==> reviews == old(reviews) && stallRatings == old(stallRatings) && nextId == old(nextId)
      ensures r.Ok? ==>
        && ValidateUpdate(payload).Ok?
        && IndexOfId(old(reviews), reviewId).Some?
        && var i := IndexOfId(old(reviews), reviewId).value;
        && var u := ValidateUpdate(payload).value;
        && old(reviews)[i].userId == userId
        && r.value == Patched(old(reviews)[i], u.rating, u.comment, now)
        && reviews == old(reviews)[i := r.value]
        && nextId == old(nextId)
        && stallRatings == old(stallRatings)[r.value.stallId := StallRatingOf(reviews, r.value.stallId)]
      ensures r.Ok? <==> (ValidateUpdate(payload).Ok? && IndexOfId(old(reviews), reviewId).Some?
        && old(reviews)[IndexOfId(old(reviews), reviewId).value].userId == userId)
      ensures old(RatingsConsistent()) ==> RatingsConsistent()
    {
      var validated := ValidateUpdate(payload);
      if validated.Err? {
        return Err(Invalid(validated.error));
      }
      var u := validated.value;
      var found := IndexOfId(reviews, reviewId);
      if found.None? {
        return Err(ReviewNotFound);
      }
      var i := found.value;
      if reviews[i].userId != userId {
        return Err(NotAuthorized);
      }
      var patched := Patched(reviews[i], u.rating, u.comment, now);
      ReplaceKeepsWellFormed(reviews, stallRatings.Keys, orders, nextId, i, patched);
      ghost var before := reviews;
      ghost var ratingsBefore := stallRatings;
      ghost var wasConsistent := RatingsConsistent();
      reviews := reviews[i := patched];
      UpdateStallRating(patched.stallId);
      r := Ok(patched);
      if wasConsistent {
        ReplaceOtherStall(before, i, patched);
        RecomputeKeepsMatch(ratingsBefore, before, reviews, patched.stallId);
      }
    }

    /**
     * delete_review: the review must exist and belong to the caller; remove
     * exactly that row and recompute the rating of the stall it belonged to.
     */
    method DeleteReview(userId: int, reviewId: int) returns (r: Result<(), ReviewError>)
      requires Valid()
      modifies this
      ensures Valid()
      ensures IndexOfId(old(reviews), reviewId).None? ==> r == Err(ReviewNotFound)
      ensures (IndexOfId(old(reviews), reviewId).Some?
        && old(reviews)[IndexOfId(old(reviews), reviewId).value].userId != userId) ==> r == Err(NotAuthorized)
      ensures r.Err? ==> reviews == old(reviews) && stallRatings == old(stallRatings) && nextId == old(nextId)
      ensures r.Ok? ==>
        && IndexOfId(old(reviews), reviewId).Some?
        && var i := IndexOfId(old(reviews), reviewId).value;
        && var stallId := old(reviews)[i].stallId;
        && reviews == old(reviews)[..i] + old(reviews)[i + 1..]
        && nextId == old(nextId)
        && stallRatings == old(stallRatings)[stallId := StallRatingOf(reviews, stallId)]
      ensures r.Ok? <==> (IndexOfId(old(reviews), reviewId).Some?
        && old(reviews)[IndexOfId(old(reviews), reviewId).value].userId == userId)
      ensures r.Ok? ==> GetReview(reviewId) == Err(ReviewNotFound)
      ensures old(RatingsConsistent()) ==> RatingsConsistent()
    {
      var found := IndexOfId(reviews, reviewId);
      if found.None? {
        return Err(ReviewNotFound);
      }
      var i := found.value;
      if reviews[i].userId != userId {
        return Err(NotAuthorized);
      }
      var stallId := reviews[i].stallId;
      RemoveKeepsWellFormed(reviews, stallRatings.Keys, orders, nextId, i);
      RemovedIdGone(reviews, stallRatings.Keys, orders, nextId, i);
      ghost var before := reviews;
      ghost var ratingsBefore := stallRatings;
      ghost var wasConsistent := RatingsConsistent();
      reviews := reviews[..i] + reviews[i + 1..];
      UpdateStallRating(stallId);
      r := Ok(());
      if wasConsistent {
        RemoveOtherStall(before, i);
        RecomputeKeepsMatch(ratingsBefore, before, reviews, stallId);
      }
    }

    /**
     * get_stall_rating_stats: "Stall not found", or the count, the rounded
     * mean and the 1..5 histogram of the stall's current reviews, built by
     * counting each review into its bucket.
     */
    method GetStallRatingStats(stallId: int) returns (r: Result<RatingStats, ReviewError>)
      ensures stallId !in stallRatings ==> r == Err(StallNotFound)
      ensures stallId in stallRatings ==> r == Ok(StatsOf(stallId, Ratings(ReviewsFor(reviews, stallId))))
    {
      if stallId !in stallRatings {
        return Err(StallNotFound);
      }
      var rs := ReviewsFor(reviews, stallId);
      if rs == [] {
        NoReviewsStats(stallId);
        assert Ratings(rs) == [];
        return Ok(RatingStats(stallId, 0, 0, EmptyDistribution));
      }
      var ratings := Ratings(rs);
      var average := RoundHalfEven(Sum(ratings), |ratings|);
      var distribution := EmptyDistribution;
      EmptyDistributionIsDistribution();
      assert ratings[..0] == [];
      var i := 0;
      while i < |rs|
        invariant 0 <= i <= |rs|
        invariant distribution == Distribution(ratings[..i])
      {
        var bucket := Bucket(rs[i].rating);
        assert rs[i].rating == ratings[i];
        DistributionStep(ratings, i);
        assert bucket in distribution;
        if bucket in distribution {
          distribution := distribution[bucket := distribution[bucket] + 1];
        }
        i := i + 1;
      }
      assert ratings[..|rs|] == ratings;
      r := Ok(RatingStats(stallId, average, |rs|, distribution));
    }

    /**
     * get_stall_reviews: "Stall not found", or the stall's reviews newest
     * first, from position `skip` on and at most `limit` of them.
     */
    function GetStallReviews(stallId: int, skip: nat, limit: nat): (r: Result<seq<Review>, ReviewError>)
      reads this
      ensures r.Err? <==> stallId !in stallRatings
      ensures r.Err? ==> r.error == StallNotFound
      ensures r.Ok? ==>
        && NewestFirstOrder(r.value)
        && (forall x :: x in r.value ==> x in reviews && x.stallId == stallId)
        && var n := |ReviewsFor(reviews, stallId)|;
           |r.value| == if skip >= n then 0 else if limit < n - skip then limit else n - skip
      ensures r.Ok? ==> r.value == Page(NewestFirst(ReviewsFor(reviews, stallId)), skip, limit)
      ensures r.Ok? && skip == 0 && limit >= |ReviewsFor(reviews, stallId)| ==>
        multiset(r.value) == multiset(ReviewsFor(reviews, stallId))
    {
      if stallId !in stallRatings then Err(StallNotFound)
      else
        ListingPage(ReviewsFor(reviews, stallId), skip, limit);
        Ok(Page(NewestFirst(ReviewsFor(reviews, stallId)), skip, limit))
    }

    /** get_user_reviews: all of the user's reviews, newest first. */
    function GetUserReviews(userId: int): (r: seq<Review>)
      reads this
      ensures NewestFirstOrder(r)
      ensures multiset(r) == multiset(ReviewsBy(reviews, userId))
      ensures forall x :: x in r <==> x in reviews && x.userId == userId
      ensures forall x :: multiset(r)[x] == if x.userId == userId then multiset(reviews)[x] else 0
    {
      ReviewsByCounts(reviews, userId);
      var sorted := NewestFirst(ReviewsBy(reviews, userId));
      assert forall x :: x in sorted <==> x in multiset(ReviewsBy(reviews, userId));
      sorted
    }
  }
}
