# ntu-food reviews, validators and cart: a Dafny model

This project models three parts of the ntu-food canteen-ordering system:

- **The review subsystem of the backend.** This covers:
  - the `Review` row and its timestamps;
  - the `ReviewCreate` / `ReviewUpdate` request schemas and their rating validators;
  - the routes that create, read, list, update and delete reviews;
  - the rating statistics route;
  - the `update_stall_rating` helper, which keeps each stall's rating column equal to the rounded mean of its reviews.
- **The registration field validators** for email, student id, phone and password.
- **The shopping-cart slice of the frontend:** a Redux reducer set over items, stall, total and item count.

The database becomes a `ReviewStore` object:

- `reviews` is the reviews table, in insertion order.
- `stallRatings` is the stall table: each stall's `rating` column, keyed by stall id.
- `orders` is the read-only orders table.
- `nextId` is the next primary key.

The three routes that write (create, update, delete) are methods. Stated in plain words, each one's contract says:

- which error it returns, and that it succeeds exactly when no guard fails;
- that nothing changes on an error;
- what the new table contents are;
- that any store whose stall ratings all match their reviews (`RatingsConsistent`) still has that property after the call.

The statistics route is a method too, because the source counts the histogram in a loop. The other read-only routes (`GetReview`, `GetStallReviews`, `GetUserReviews`) are functions that read the store.

The store's invariant `Valid` says six things:

1. Each stored review's id is lower than `nextId`.
2. Ids increase in table order, so no two reviews have the same id.
3. Each stored review's stall exists in the stall table.
4. An order has at most one review.
5. A user has at most one standalone review per stall.
6. Every order link names the reviewer's own completed order from that stall.

The guards of `create_review` maintain this invariant.

**Units.** Ratings are integers in tenths, so 10..50 stands for 1.0..5.0. A stall rating of 0 means "no reviews". A raw JSON rating is the exact rational value of the parsed float.

**Rounding.** Python's `round(x, 1)` and `round(x)` round the exact value to the nearest result, ties to even. This is `Rounding.RoundHalfEven`. The declarative predicate `NearestTiesEven` characterises it, and the lemma `RoundHalfEvenUnique` shows the result is unique.

**The cart.** Each reducer is a pure function on `CartState` (`Added`, `Removed`, `QuantityUpdated`, `RequestsUpdated`). The imperative `Cart` class's methods are proved to produce exactly that state. Lemmas about the functions show:

- the totals equal the sum of price × quantity and the sum of quantities;
- the cart's coherence invariant is preserved. Coherence means: the totals are right, ids are unique, all items come from the cart's stall, and there is a stall exactly when there are items;
- what each reducer does to the items.

Prices, JavaScript numbers in the source, are integer cents in the model.

**The validators** are functions returning a `Verdict(valid, message)`. The email pattern is written two ways:

- a declarative predicate that splits the address wherever the pattern allows (`EmailMatches`);
- a check that splits at the first `@` and the last `.`, which `ValidateEmail` itself uses.

The two forms are proved equal (`CheckEmailExact`). The student-id, Singapore-mobile and password patterns have a fixed shape, so their predicates (`StudentIdMatches`, `SgMobileMatches`, `HasUpper`, `HasLower`, `HasDigit`) state the pattern directly and the validators use them as they are. The phone number's three chained `replace` calls are proved equal to a single pass that drops the separators (`CleanPhoneDropsSeparators`).

**Three behaviours of the code the model keeps:**

- `create_review`, `update_review` and `delete_review` commit the review first (backend/app/routes/reviews.py:65, :184 and :208) and recompute the stall's rating in a second commit (backend/app/routes/reviews.py:224, or :229 when the stall has no reviews). The model runs the two writes one after the other inside one method.
- An order id that belongs to another user is reported as "Order not found", never as a mismatch, because the lookup filters by user (backend/app/routes/reviews.py:29-32, `OtherUsersOrderNotFound`).
- `update_review` recomputes the stall rating after every update, even when only the comment changed (backend/app/routes/reviews.py:188).

## Model

| member | source | states |
|---|---|---|
| Rounding.RoundHalfEven | backend/app/routes/reviews.py:223 | the result is the integer nearest to n/d, and a tie goes to the even neighbour (Python's `round`) |
| Rounding.RoundHalfEvenUnique | backend/app/schemas/review.py:15 | any integer that is nearest to n/d with ties to even equals `RoundHalfEven(n, d)`, so the rounding is uniquely determined |
| Rounding.RoundWithin | backend/app/schemas/review.py:13-15 | rounding a value that lies between two integers gives a result between those integers, so a rating in [1.0, 5.0] still rounds into [1.0, 5.0] |
| ReviewRecord.Patched | backend/app/routes/reviews.py:179-185 | a present rating or comment is assigned and an absent one is kept; id, user, stall, order and created_at never change; updated_at becomes `now` exactly when a stored value changed (the `onupdate` of models/review.py:16), otherwise it is kept |
| ReviewSchema.ValidateRating | backend/app/schemas/review.py:8-15 | accepted exactly when 1.0 <= v <= 5.0; an accepted rating is `round(v, 1)` in tenths |
| ReviewSchema.ValidateCreate | backend/app/schemas/review.py:5-15 | Ok exactly when stall_id > 0, order_id absent or > 0, rating in [1.0, 5.0] and comment at most 1000 characters; Ok keeps the fields and rounds the rating; Err lists each failing field, and lists it exactly when that field fails |
| ReviewSchema.ValidateUpdate | backend/app/schemas/review.py:17-25 | Ok exactly when a present rating is in [1.0, 5.0] and a present comment fits in 1000 characters; absent fields stay absent; a present rating is rounded to a tenth |
| ReviewSchema.RatingBoundaries | backend/app/schemas/review.py:13-14 | 1.0 and 5.0 are accepted as 10 and 50; 0.5 and 5.5 are rejected |
| ReviewSchema.RatingTiesToEven | backend/app/schemas/review.py:15 | 4.25 rounds to 4.2 and 4.75 rounds to 4.8 (ties to even) |
| ReviewSchema.ValidatedRatingIsPythonRound | backend/app/schemas/review.py:15 | every accepted rating is the unique tenth nearest to the input, with ties to even |
| RatingAggregate.Sum | backend/app/routes/reviews.py:127 | the sum of n ratings lies between 10·n and 50·n tenths |
| RatingAggregate.StallRating | backend/app/routes/reviews.py:219-228 | 0 when there are no reviews; otherwise the mean rounded half-to-even to a tenth, which lies in 1.0..5.0 |
| RatingAggregate.Bucket | backend/app/routes/reviews.py:133 | `round(rating)`: the nearest whole star, ties to even, always 1..5 |
| RatingAggregate.Count | backend/app/routes/reviews.py:132-135 | the number of ratings in one bucket never exceeds the number of ratings |
| RatingAggregate.Distribution | backend/app/routes/reviews.py:130-135 | the histogram has exactly the keys 1..5 |
| RatingAggregate.DistributionStep | backend/app/routes/reviews.py:132-135 | counting one more review adds one to its own bucket and leaves the other buckets alone |
| RatingAggregate.DistributionAddsUp | backend/app/routes/reviews.py:130-135 | the five bucket counts add up to the number of reviews, so no review falls outside 1..5 |
| RatingAggregate.NoReviewsStats | backend/app/routes/reviews.py:119-125 | a stall without reviews has average 0.0, total 0 and all five buckets 0 |
| RatingAggregate.StatsOf | backend/app/routes/reviews.py:119-142 | the statistics carry the stall id and the number of ratings, a histogram keyed by exactly the stars 1..5, an average of 0 with no ratings and within 1.0..5.0 otherwise |
| RatingAggregate.StatsConsistent | backend/app/routes/reviews.py:127-142 | for a stall with reviews the average lies in 1.0..5.0, the total is the number of reviews, and the five bucket counts add up to that total |
| RatingAggregate.TwoReviewsExample | backend/app/routes/reviews.py:127-142 | ratings 4.0 and 5.0 give average 4.5, total 2 and one review each in buckets 4 and 5 |
| RatingAggregate.HalfwayBuckets | backend/app/routes/reviews.py:133 | 1.5 and 2.5 both go to bucket 2, and 3.5 and 4.5 both go to bucket 4 |
| ReviewListing.Insert | backend/app/routes/reviews.py:87 | inserting into a newest-first list keeps it newest first and adds exactly that review |
| ReviewListing.NewestFirst | backend/app/routes/reviews.py:87 | `order_by(created_at.desc())`: the result is ordered newest first and is a permutation of the input |
| ReviewListing.Page | backend/app/routes/reviews.py:87 | `offset(skip).limit(limit)`: the window holds min(limit, n - skip) rows (0 past the end), and row k is input row skip + k |
| ReviewListing.PageKeepsOrder | backend/app/routes/reviews.py:87 | a page of a newest-first list is newest first |
| ReviewListing.ListingPage | backend/app/routes/reviews.py:85-87 | a page of the sorted rows is newest first, holds only rows of the input, has the window's length, and is the whole input, reordered, when the window covers it |
| ReviewService.ReviewsFor | backend/app/routes/reviews.py:117 | the reviews of a stall are exactly the stored reviews with that stall id |
| ReviewService.ReviewsForOne | backend/app/routes/reviews.py:117 | on one review the stall filter keeps it exactly when it is of that stall |
| ReviewService.ReviewsForConcat | backend/app/routes/reviews.py:117 | the stall filter distributes over concatenation, so with `ReviewsForOne` it keeps the matching rows in table order |
| ReviewService.ReviewsForCounts | backend/app/routes/reviews.py:117 | each review of the stall appears as often as in the table, and no other review appears |
| ReviewService.ReviewsBy | backend/app/routes/reviews.py:150 | the reviews of a user are exactly the stored reviews with that user id (the second filter of the routes, over `user_id` instead of `stall_id`) |
| ReviewService.ReviewsByOne | backend/app/routes/reviews.py:150 | on one review the user filter keeps it exactly when it is by that user |
| ReviewService.ReviewsByConcat | backend/app/routes/reviews.py:150 | the user filter distributes over concatenation, so with `ReviewsByOne` it keeps the matching rows in table order |
| ReviewService.ReviewsByCounts | backend/app/routes/reviews.py:150 | each review by the user appears as often as in the table, and no other review appears |
| ReviewService.IndexOfId | backend/app/routes/reviews.py:159 | `.first()` of the id filter: the first row with that id, or none when no row has it |
| ReviewService.CheckCreate | backend/app/routes/reviews.py:22-53 | passes exactly when the new review keeps the table invariants; each error is reported exactly when its guard is the first to fail, in source order: stall missing; order not the user's; order from another stall; order not completed; order already reviewed; standalone review already present |
| ReviewService.OtherUsersOrderNotFound | backend/app/routes/reviews.py:28-34 | linking another user's order reports "Order not found" |
| ReviewService.LinkedReviewsDoNotBlockStandalone | backend/app/routes/reviews.py:45-53 | reviews linked to orders never block a standalone review of the same stall |
| ReviewService.AppendKeepsWellFormed | backend/app/routes/reviews.py:55-66 | inserting an admissible review with id `nextId` keeps the table invariants |
| ReviewService.ReplaceKeepsWellFormed | backend/app/routes/reviews.py:179-185 | rewriting a row without changing its keys keeps the table invariants |
| ReviewService.RemoveKeepsWellFormed | backend/app/routes/reviews.py:206-208 | deleting a row keeps the table invariants |
| ReviewService.AppendOtherStall | backend/app/routes/reviews.py:217 | inserting a review of one stall leaves every other stall's review list unchanged |
| ReviewService.ReplaceOtherStall | backend/app/routes/reviews.py:217 | rewriting a review without changing its stall leaves every other stall's review list unchanged |
| ReviewService.RemoveOtherStall | backend/app/routes/reviews.py:217 | deleting a review leaves every other stall's review list unchanged |
| ReviewService.RecomputeKeepsMatch | backend/app/routes/reviews.py:215-229 | when a write changes one stall's reviews only and that stall's rating is then recomputed, every stored rating again equals the rating its reviews give |
| ReviewService.RemovedIdGone | backend/app/routes/reviews.py:199-207 | in a well-formed table, after a row is deleted no row has its id, so looking the id up finds nothing |
| ReviewService.IdsAreUnique | backend/app/models/review.py:9 | in a well-formed table the primary key is unique: the lookup of a row's id finds that row |
| ReviewService.ReviewStore.UpdateStallRating | backend/app/routes/reviews.py:215-229 | sets an existing stall's rating to the rounded mean of its reviews (0 with none); a missing stall is left alone; reviews and other stalls are unchanged |
| ReviewService.ReviewStore.GetReview | backend/app/routes/reviews.py:153-162 | Ok exactly when some stored review has the id, and the result is that review; otherwise "Review not found" |
| ReviewService.ReviewStore.CreateReview | backend/app/routes/reviews.py:15-71 | validation errors, then the guards' errors, with nothing changed; Ok exactly when the payload validates and `CheckCreate` passes; on success the new row has id `nextId`, belongs to the caller, has both timestamps `now`, is appended, can be read back by id, and its stall's rating is recomputed; the invariants and rating consistency are preserved |
| ReviewService.ReviewStore.UpdateReview | backend/app/routes/reviews.py:164-190 | validation errors, "Review not found", "Not authorized", with nothing changed; Ok exactly when the patch validates and the review exists and belongs to the caller; on success only that row changes, to the patched review, and its stall's rating is recomputed; the invariants and rating consistency are preserved |
| ReviewService.ReviewStore.DeleteReview | backend/app/routes/reviews.py:192-213 | "Review not found" or "Not authorized" with nothing changed; Ok exactly when the review exists and belongs to the caller; on success exactly that row is removed, the id no longer resolves, and the rating of the stall it belonged to is recomputed; the invariants and rating consistency are preserved |
| ReviewService.ReviewStore.GetStallRatingStats | backend/app/routes/reviews.py:107-142 | "Stall not found" for a missing stall; otherwise the loop's histogram and the mean equal `StatsOf` over the stall's current ratings |
| ReviewService.ReviewStore.GetStallReviews | backend/app/routes/reviews.py:73-87 | "Stall not found" exactly for a missing stall; otherwise the page is `Page(NewestFirst(ReviewsFor(reviews, stallId)), skip, limit)`, so row k is row skip + k of the stall's reviews sorted newest first; it holds only that stall's reviews, newest first, with the page length given by skip and limit; the whole list when skip is 0 and limit is large enough |
| ReviewService.ReviewStore.GetUserReviews | backend/app/routes/reviews.py:144-151 | exactly the caller's reviews, newest first, each as often as in the table (once, as ids are unique) and no other review |
| Validators.CheckDomainExact | backend/app/utils/validators.py:16 | the computed domain check holds exactly when the domain matches `[a-zA-Z0-9.-]+\.[a-zA-Z]{2,}` |
| Validators.CheckEmailExact | backend/app/utils/validators.py:16-17 | the computed email check holds exactly when the whole address matches the email pattern |
| Validators.ValidateEmail | backend/app/utils/validators.py:4-22 | "Email is required" for the empty string, "Invalid email format" when the pattern fails, otherwise valid; the message is present exactly when invalid |
| Validators.ValidateStudentId | backend/app/utils/validators.py:34-48 | "Student ID is required" for the empty string; valid exactly when the id is U or u, then 7 digits, then a letter; otherwise the format message |
| Validators.StudentIdExamples | backend/app/utils/validators.py:42-46 | U1234567A and u7654321z pass; U123456A (too short) and A1234567B (wrong prefix) fail |
| Validators.Strip | backend/app/utils/validators.py:59 | `replace(c, "")` leaves no c at any position |
| Validators.StripKeepsOthers | backend/app/utils/validators.py:59 | `replace(c, "")` leaves no c and exactly as many of every other character as the input had |
| Validators.CleanPhone | backend/app/utils/validators.py:59 | the cleaned number has no space, hyphen or plus, and as many of every other character as the input |
| Validators.CleanPhoneDropsSeparators | backend/app/utils/validators.py:58-59 | the three chained replaces equal dropping every space, hyphen and plus |
| Validators.ValidatePhone | backend/app/utils/validators.py:50-69 | "Phone number is required" for the empty string; otherwise valid exactly when the cleaned number is an optional 65, then 8 or 9, then 7 digits |
| Validators.SeparatorsOnlyPhone | backend/app/utils/validators.py:55-67 | a phone made only of separators is not "required" but fails on format |
| Validators.ValidatePassword | backend/app/utils/validators.py:71-91 | the first failing rule's message, in order: empty, shorter than 8, no uppercase, no lowercase, no digit; valid exactly when all hold |
| CartSlice.Total | frontend/src/store/slices/cartSlice.ts:31 | on lines with non-negative prices and positive quantities the total is never negative |
| CartSlice.ItemCount | frontend/src/store/slices/cartSlice.ts:32 | on such lines the item count is at least the number of lines |
| CartSlice.CalculateTotals | frontend/src/store/slices/cartSlice.ts:30-34 | an empty cart totals 0 and 0; on such lines the total is never negative and the count is at least the number of lines |
| CartSlice.Added | frontend/src/store/slices/cartSlice.ts:40-70 | an item from another stall leaves the state as it was; otherwise the stall becomes the item's, the stall name is set from the item only when the cart had no stall, the totals are recomputed over the new items and no line is lost |
| CartSlice.Removed | frontend/src/store/slices/cartSlice.ts:71-86 | exactly the items with another id stay; the totals are recomputed over them; the stall and its name are cleared when the cart empties and kept otherwise |
| CartSlice.QuantityUpdated | frontend/src/store/slices/cartSlice.ts:87-112 | an unknown id leaves the state as it was; for a known id the totals are recomputed and the stall is cleared exactly as in removeFromCart |
| CartSlice.RequestsUpdated | frontend/src/store/slices/cartSlice.ts:113-123 | the totals, the stall and the number of lines stay as they were |
| CartSlice.Find | frontend/src/store/slices/cartSlice.ts:56-58 | the first item with the id, or none when no item has it |
| CartSlice.Without | frontend/src/store/slices/cartSlice.ts:72-74 | exactly the items whose id differs are kept |
| CartSlice.WithoutOne | frontend/src/store/slices/cartSlice.ts:72-74 | on one entry the filter keeps it exactly when its id differs |
| CartSlice.WithoutConcat | frontend/src/store/slices/cartSlice.ts:72-74 | the filter distributes over concatenation, so with `WithoutOne` the kept entries stay in order |
| CartSlice.WithoutCounts | frontend/src/store/slices/cartSlice.ts:72-74 | each entry with another id is kept as often as the cart holds it, and none with the id |
| CartSlice.SumsOfAppend | frontend/src/store/slices/cartSlice.ts:30-34 | appending an item adds its price × quantity to the total and its quantity to the count |
| CartSlice.SumsOfReplace | frontend/src/store/slices/cartSlice.ts:30-34 | replacing an item changes the sums by exactly the difference between the two items |
| CartSlice.WithoutCount | frontend/src/store/slices/cartSlice.ts:72-74 | filtering out an id lowers the item count by exactly the quantity those items held |
| CartSlice.WithoutKeepsUnique | frontend/src/store/slices/cartSlice.ts:72-74 | filtering keeps ids unique |
| CartSlice.AddFromOtherStallIgnored | frontend/src/store/slices/cartSlice.ts:44-47 | adding an item from a different stall leaves the state exactly as it was |
| CartSlice.Merge | frontend/src/store/slices/cartSlice.ts:56-64 | the entry merged into the lines; its effect is stated by `MergeEffect` (a new id is appended, the count rises by the added quantity) and `MergeEntries` (an existing id raises only its first entry's quantity) |
| CartSlice.Settle | frontend/src/store/slices/cartSlice.ts:76-85 | the given items with both totals recomputed over them; no stall and no stall name when the items ran out, the given stall and name otherwise |
| CartSlice.MergeEffect | frontend/src/store/slices/cartSlice.ts:56-64 | a new id is appended; an existing id keeps the length and its entry's price is charged for the added quantity; either way the count rises by the added quantity |
| CartSlice.MergeEntries | frontend/src/store/slices/cartSlice.ts:56-61 | for an existing id the first matching entry's quantity rises by the added quantity and every other entry stays as it was |
| CartSlice.MergeKeepsUnique | frontend/src/store/slices/cartSlice.ts:56-64 | merging keeps ids unique |
| CartSlice.AddedTotals | frontend/src/store/slices/cartSlice.ts:40-70 | an accepted add merges the item into the lines, recomputes both totals over them, raises the count by the quantity, sets the stall to the item's, and sets the stall name from the item when the cart had no stall; the total rises at the price of the line that holds the item (`MergeEffect`) |
| CartSlice.AddedKeepsCoherent | frontend/src/store/slices/cartSlice.ts:40-70 | addToCart preserves the cart's coherence |
| CartSlice.RemovedEffect | frontend/src/store/slices/cartSlice.ts:71-86 | the id is gone, every other item stays, and the stall is cleared exactly when the cart becomes empty |
| CartSlice.RemovedKeepsCoherent | frontend/src/store/slices/cartSlice.ts:71-86 | removeFromCart preserves the cart's coherence |
| CartSlice.NonPositiveQuantityRemoves | frontend/src/store/slices/cartSlice.ts:94-96 | setting a quantity <= 0 on a present item is the same as removing it |
| CartSlice.PositiveQuantitySets | frontend/src/store/slices/cartSlice.ts:97-99 | a positive quantity replaces only that item's quantity, its name, price, stall, id and requests stay, and every other item stays; the count moves by the difference and the total is recomputed over the items |
| CartSlice.QuantityUpdatedKeepsCoherent | frontend/src/store/slices/cartSlice.ts:87-112 | updateQuantity preserves the cart's coherence |
| CartSlice.RequestsUpdatedEffect | frontend/src/store/slices/cartSlice.ts:113-123 | only the first matching item's special requests change, its other fields and every other item stay; totals and stall stay; an absent id changes nothing |
| CartSlice.RequestsUpdatedKeepsCoherent | frontend/src/store/slices/cartSlice.ts:113-123 | updateSpecialRequests preserves the cart's coherence |
| CartSlice.InitialStateCoherent | frontend/src/store/slices/cartSlice.ts:21-27 | the initial (and cleared) cart is coherent |
| CartSlice.Cart.AddToCart | frontend/src/store/slices/cartSlice.ts:40-70 | the new state is `Added(old state, item)` |
| CartSlice.Cart.RemoveFromCart | frontend/src/store/slices/cartSlice.ts:71-86 | the new state is `Removed(old state, id)` |
| CartSlice.Cart.UpdateQuantity | frontend/src/store/slices/cartSlice.ts:87-112 | the new state is `QuantityUpdated(old state, id, quantity)`, which leaves the state unchanged for an unknown id |
| CartSlice.Cart.UpdateSpecialRequests | frontend/src/store/slices/cartSlice.ts:113-123 | the new state is `RequestsUpdated(old state, id, text)` |
| CartSlice.Cart.ClearCart | frontend/src/store/slices/cartSlice.ts:124-130 | the new state is the initial state |
| CartSlice.Cart.LoadCartFromStorage | frontend/src/store/slices/cartSlice.ts:131-133 | the new state is the loaded state, unchanged |

## Left out

- RatingAggregate.StallRating computes the exact mean of the tenths and rounds it half-to-even. Python sums binary floats and divides, which can round differently when the mean is a tie or close to one. For example, a mean of exactly x.x5 can land just above or just below it in floating point. The model states the exact-arithmetic rounding instead.
- ReviewSchema.ValidateRating takes the rating as the exact rational value of the parsed float. It does not model JSON coercion, missing or non-numeric fields, NaN or infinity.
- pydantic's error responses are modelled only as the list of failing fields. Their text and the HTTP status codes (201, 204, 400, 403, 404) are not modelled. The model names each error as a constructor of `ReviewError`.
- Authentication (`get_current_user`) is not modelled; the caller's user id is a parameter. The user name and email joined into stall listings are also not modelled, because the users table is not part of this model.
- The clock (`datetime.utcnow`) is a parameter `now`. The two column defaults of created_at and updated_at (backend/app/models/review.py:15-16) are two clock reads in the source; the model gives both the one value `now`. New primary keys come from a counter `nextId`, which stands in for the database sequence.
- ReviewListing.NewestFirst breaks ties in created_at by keeping insertion order. The database leaves the order of ties unspecified.
- ReviewService.ReviewStore.GetStallReviews takes skip and limit as explicit parameters; the query defaults `skip = 0` and `limit = 50` (backend/app/routes/reviews.py:76-77) are left to the caller. It takes them as natural numbers. The route accepts negative integers; what the database does with them is not modelled.
- The order statuses are modelled as `Completed` or another named status. The order model, with its full status enumeration, is not part of this model.
- Database transactions, session refreshes, concurrency and the second commit of the rating recompute are not modelled as separate failure points: each route is one sequential step.
- Validators: regular expressions are modelled over ASCII character classes. Python's `\d` also matches other Unicode digits, and `$` also matches just before a final newline. The model accepts neither.
- CartSlice: the reducer treats stall id 0 as absent, because 0 is falsy in JavaScript. The model restricts stall ids to positive integers. Prices, JavaScript numbers in the source, are integer cents in the model, so floating-point rounding of totals is not modelled. The `addToCart` payload object is copied, not aliased to the item in the store.
- CartSlice.Total, CartSlice.ItemCount and CartSlice.CalculateTotals state their bounds only for lines with non-negative prices and positive quantities (`Priced`); the reducer itself accepts any numbers.
- The other slices (orders, stalls), the API configuration, the application setup and the maintenance scripts are not part of this model.
