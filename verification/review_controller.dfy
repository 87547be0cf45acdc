/** backend/controllers/reviewController.js: creating a review (validation,
    product lookup, duplicate check, insert, average recompute) and listing a
    product's reviews. */
module ReviewController {
  import opened Results
  import opened Js
  import opened Seqs
  import opened ReviewModel
  import opened Store
  import opened Http

  /** The JSON body of `POST /api/reviews`; any field may be absent. */
  datatype ReviewBody = ReviewBody(productId: Option<ProductId>, rating: Option<real>,
                                   comment: Option<string>)

  /** `productId && rating && comment` is truthy. */
  predicate FieldsPresent(b: ReviewBody) {
    TruthyText(b.productId) && TruthyNumber(b.rating) && TruthyText(b.comment)
  }

  /** The document the controller hands to `Review.create` once the checks pass. */
  function DraftOf(caller: UserId, b: ReviewBody): Draft
    requires FieldsPresent(b)
  {
    Draft(caller, b.productId.value, b.rating.value, b.comment.value)
  }

  /** The store once `review` is inserted and its product's `averageRating` is
      rewritten with the mean over all of that product's reviews. */
  function Record(s: Store, review: Review): (r: Store)
    requires review.productId in s.products
    ensures r.reviews == s.reviews + [review]
    ensures r.products.Keys == s.products.Keys
    ensures forall id :: id in s.products && id != review.productId ==> r.products[id] == s.products[id]
    ensures |ReviewsOf(r.reviews, review.productId)| >= 1
    ensures r.products[review.productId]
            == s.products[review.productId].(averageRating := AverageOf(r.reviews, review.productId))
  {
    var pid := review.productId;
    var reviews := s.reviews + [review];
    ReviewsOfAppend(s.reviews, review, pid);
    var ratings := Ratings(ReviewsOf(reviews, pid));
    var average := Sum(ratings) / (|ratings| as real);
    Store(s.products[pid := s.products[pid].(averageRating := Some(average))], reviews)
  }

  /** `createReview` for the authenticated user `caller` at clock reading `now`. */
  function CreateReview(s: Store, caller: UserId, body: ReviewBody, now: int): (r: Step<Review>)
    // every refusal leaves the store as it was
    ensures r.reply.Refused? ==> r.store == s
    // 400 when a field is missing or falsy
    ensures r.reply == Refused(BadRequest(MissingFields)) <==> !FieldsPresent(body)
    // 404 when the product does not exist
    ensures r.reply == Refused(NotFound(ProductNotFound))
        <==> FieldsPresent(body) && body.productId.value !in s.products
    // 400 when the caller already reviewed the product
    ensures r.reply == Refused(BadRequest(AlreadyReviewed))
        <==> && FieldsPresent(body) && body.productId.value in s.products
             && HasReviewBy(s.reviews, caller, body.productId.value)
    // 500 when the schema rejects the review; the unique index is never what fails
    ensures r.reply.Refused? && r.reply.failure.ServerError?
        <==> && FieldsPresent(body) && body.productId.value in s.products
             && !HasReviewBy(s.reviews, caller, body.productId.value)
             && Violations(DraftOf(caller, body)) != {}
    ensures r.reply.Refused? && r.reply.failure.ServerError? ==>
              r.reply.failure.cause == ValidationFailed(Violations(DraftOf(caller, body)))
    // 201 exactly when every check passes and the schema accepts the review ...
    ensures r.reply.Created?
        <==> && FieldsPresent(body) && body.productId.value in s.products
             && !HasReviewBy(s.reviews, caller, body.productId.value)
             && Violations(DraftOf(caller, body)) == {}
    // ... with exactly one new review, by the caller, with the body's values
    ensures r.reply.Created? ==>
              && FieldsPresent(body)
              && r.reply.payload == Review(caller, body.productId.value, body.rating.value,
                                           Trim(body.comment.value), now)
              && r.store.reviews == s.reviews + [r.reply.payload]
    // ... and only the reviewed product changes, in its average alone, which
    // becomes the mean over all its reviews, the new one included
    ensures r.reply.Created? ==>
              var pid := body.productId.value;
              && pid in s.products
              && r.store.products.Keys == s.products.Keys
              && (forall id :: id in s.products && id != pid ==> r.store.products[id] == s.products[id])
              && |ReviewsOf(r.store.reviews, pid)| >= 1
              && r.store.products[pid]
                 == s.products[pid].(averageRating := AverageOf(r.store.reviews, pid))
    // no other refusal and no plain 200
    ensures r.reply.Refused? ==>
              r.reply.failure in {BadRequest(MissingFields), NotFound(ProductNotFound),
                                  BadRequest(AlreadyReviewed)} || r.reply.failure.ServerError?
    ensures !r.reply.Ok?
  {
    if !FieldsPresent(body) then
      Step(s, Refused(BadRequest(MissingFields)))
    else
      var pid := body.productId.value;
      if pid !in s.products then
        Step(s, Refused(NotFound(ProductNotFound)))
      else if HasReviewBy(s.reviews, caller, pid) then
        Step(s, Refused(BadRequest(AlreadyReviewed)))
      else
        match Insert(s.reviews, DraftOf(caller, body), now)
        case Failure(e) => Step(s, Refused(ServerError(e)))
        case Success(reviews) =>
          var review := reviews[|reviews| - 1];
          Step(Record(s, review), Created(review))
  }

  /** `getProductReviews`: the reviews naming `pid`, newest first. */
  function GetProductReviews(s: Store, pid: ProductId): (r: Step<seq<Review>>)
    ensures r.store == s
    ensures r.reply.Ok?
    ensures SortedDesc(r.reply.payload, (x: Review) => x.createdAt)
    ensures multiset(r.reply.payload) == multiset(ReviewsOf(s.reviews, pid))
    ensures forall x :: x in r.reply.payload <==> x in s.reviews && x.productId == pid
  {
    var listed := NewestFirst(ReviewsOf(s.reviews, pid));
    forall x ensures x in listed <==> x in s.reviews && x.productId == pid {
      assert x in listed <==> x in multiset(ReviewsOf(s.reviews, pid));
      ReviewsOfMembers(s.reviews, pid, x);
    }
    Step(s, Ok(listed))
  }

  /** Recording a well-formed review of an existing product that its author
      has not yet reviewed keeps the store invariant. */
  lemma RecordKeepsValid(s: Store, x: Review)
    requires Valid(s)
    requires x.productId in s.products && WellFormed(x)
    requires !HasReviewBy(s.reviews, x.userId, x.productId)
    ensures Valid(Record(s, x))
  {
    var s' := Record(s, x);
    UniquePairsAppend(s.reviews, x);
    forall id | id in s'.products
      ensures s'.products[id].averageRating == AverageOf(s'.reviews, id)
    {
      ReviewsOfAppend(s.reviews, x, id);
    }
  }

  /** Every review request, successful or not, keeps the store invariant:
      ratings in [1, 5], trimmed non-empty comments, reviews naming existing
      products, one review per (user, product), and each product's average
      equal to the mean of its reviews. */
  lemma CreateReviewKeepsValid(s: Store, caller: UserId, body: ReviewBody, now: int)
    requires Valid(s)
    ensures Valid(CreateReview(s, caller, body, now).store)
  {
    var r := CreateReview(s, caller, body, now);
    if r.reply.Created? {
      var d := DraftOf(caller, body);
      InsertKeepsSchema(s.reviews, d, now);
      var rs' := Insert(s.reviews, d, now).value;
      var x := rs'[|rs'| - 1];
      assert WellFormed(x);
      RecordKeepsValid(s, x);
    }
  }

  /** Recomputing from all reviews agrees with a running-mean update of the
      previous average: the first review sets it to its own rating, a later one
      to (n * previous + rating) / (n + 1). */
  lemma RecordRunningMean(s: Store, x: Review)
    requires x.productId in s.products
    requires s.products[x.productId].averageRating == AverageOf(s.reviews, x.productId)
    ensures var n := |ReviewsOf(s.reviews, x.productId)|;
            var before := s.products[x.productId].averageRating;
            var after := Record(s, x).products[x.productId].averageRating;
            && (n == 0 ==> before == None && after == Some(x.rating))
            && (n > 0 ==> before.Some? && after == Some(RunningMean(before.value, n, x.rating)))
  {
    AverageOfAppend(s.reviews, x, x.productId);
  }

  /** A request that passes every check is created with the body's values and
      the trimmed comment. */
  lemma AcceptedWhenChecksPass(s: Store, caller: UserId, body: ReviewBody, now: int)
    requires FieldsPresent(body) && body.productId.value in s.products
    requires !HasReviewBy(s.reviews, caller, body.productId.value)
    requires Violations(DraftOf(caller, body)) == {}
    ensures var r := CreateReview(s, caller, body, now);
            && r.reply == Created(Review(caller, body.productId.value, body.rating.value,
                                         Trim(body.comment.value), now))
            && r.store.reviews == s.reviews + [r.reply.payload]
  {
  }

  /** The status line `createReview` answers with, for every request. */
  lemma CreateReviewStatus(s: Store, caller: UserId, body: ReviewBody, now: int)
    ensures var code := StatusOf(CreateReview(s, caller, body, now).reply);
            && (code == 400 <==> || !FieldsPresent(body)
                                 || (&& body.productId.value in s.products
                                     && HasReviewBy(s.reviews, caller, body.productId.value)))
            && (code == 404 <==> FieldsPresent(body) && body.productId.value !in s.products)
            && (code == 500 <==> && FieldsPresent(body) && body.productId.value in s.products
                                 && !HasReviewBy(s.reviews, caller, body.productId.value)
                                 && Violations(DraftOf(caller, body)) != {})
            && (code == 201 <==> && FieldsPresent(body) && body.productId.value in s.products
                                 && !HasReviewBy(s.reviews, caller, body.productId.value)
                                 && Violations(DraftOf(caller, body)) == {})
  {
  }

  /** Once a user's review of a product has been stored, that user's every
      further review of it is refused with "already reviewed" and changes nothing. */
  lemma SecondReviewRejected(s: Store, caller: UserId, first: ReviewBody, second: ReviewBody,
                             now: int, later: int)
    requires CreateReview(s, caller, first, now).reply.Created?
    requires FieldsPresent(second) && second.productId == first.productId
    ensures var s' := CreateReview(s, caller, first, now).store;
            CreateReview(s', caller, second, later)
              == Step(s', Refused(BadRequest(AlreadyReviewed)))
  {
    var s' := CreateReview(s, caller, first, now).store;
    var k := |s'.reviews| - 1;
    assert s'.reviews[k].userId == caller && s'.reviews[k].productId == first.productId.value;
  }

  /** A stored review strictly newer than every other review of its product
      heads that product's newest-first listing. */
  lemma NewestHeadsListing(s: Store, x: Review)
    requires x in s.reviews
    requires forall y :: y in s.reviews && y != x ==> y.createdAt < x.createdAt
    ensures var listed := GetProductReviews(s, x.productId).reply.payload;
            |listed| > 0 && listed[0] == x
  {
    var listed := GetProductReviews(s, x.productId).reply.payload;
    assert x in listed;
    StrictMaxComesFirst(listed, (z: Review) => z.createdAt, x);
  }

  /** A review created at a clock reading later than every stored review's
      heads its product's newest-first listing. */
  lemma NewReviewListedFirst(s: Store, caller: UserId, body: ReviewBody, now: int)
    requires forall i :: 0 <= i < |s.reviews| ==> s.reviews[i].createdAt < now
    requires CreateReview(s, caller, body, now).reply.Created?
    ensures var r := CreateReview(s, caller, body, now);
            var listed := GetProductReviews(r.store, body.productId.value).reply.payload;
            |listed| > 0 && listed[0] == r.reply.payload
  {
    var r := CreateReview(s, caller, body, now);
    var x := r.reply.payload;
    assert r.store.reviews == s.reviews + [x];
    assert x.createdAt == now && x.productId == body.productId.value;
    forall y | y in r.store.reviews && y != x ensures y.createdAt < x.createdAt {
      assert y in s.reviews;
    }
    NewestHeadsListing(r.store, x);
  }

}
