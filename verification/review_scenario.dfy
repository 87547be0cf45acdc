/** A worked example of the review flow: a product whose two reviews are rated
    4 and 5 receives a third review, rated 3, from a user who has not reviewed
    it yet. */
module ReviewScenario {
  import opened Results
  import opened Js
  import opened ReviewModel
  import opened Store
  import opened Http
  import opened ReviewController

  lemma RatingsSum453()
    ensures Sum([4.0, 5.0, 3.0]) == 12.0
  {
    SumAppend([], 4.0);
    assert [] + [4.0] == [4.0];
    SumAppend([4.0], 5.0);
    assert [4.0] + [5.0] == [4.0, 5.0];
    SumAppend([4.0, 5.0], 3.0);
    assert [4.0, 5.0] + [3.0] == [4.0, 5.0, 3.0];
  }

  /** A body for `product`, rated 3, whose comment is non-empty and already trimmed. */
  predicate RatedThree(body: ReviewBody, product: ProductId, comment: string)
  {
    && body.productId == Some(product) && product != ""
    && body.rating == Some(3.0)
    && body.comment == Some(comment) && comment != "" && Trim(comment) == comment
  }

  /** The request passes every check and records the review as sent. */
  lemma ThirdReviewAccepted(s: Store, caller: UserId, body: ReviewBody, product: ProductId,
                            comment: string, now: int)
    requires product in s.products
    requires !HasReviewBy(s.reviews, caller, product)
    requires RatedThree(body, product, comment)
    ensures var r := CreateReview(s, caller, body, now);
            && r.reply == Created(Review(caller, product, 3.0, comment, now))
            && r.store.reviews == s.reviews + [r.reply.payload]
  {
    assert FieldsPresent(body);
    assert Violations(DraftOf(caller, body)) == {};
    AcceptedWhenChecksPass(s, caller, body, now);
  }

  /** With earlier ratings 4 and 5 the recomputed mean is (4 + 5 + 3) / 3 = 4. */
  lemma ThirdReviewAverage(rs: seq<Review>, x: Review, product: ProductId)
    requires Ratings(ReviewsOf(rs, product)) == [4.0, 5.0]
    requires x.productId == product && x.rating == 3.0
    ensures AverageOf(rs + [x], product) == Some(4.0)
  {
    ReviewsOfAppend(rs, x, product);
    RatingsAppend(ReviewsOf(rs, product), x);
    assert Ratings(ReviewsOf(rs + [x], product)) == [4.0, 5.0, 3.0];
    RatingsSum453();
  }

  /** The mean of the earlier ratings 4 and 5 is 4.5. */
  lemma TwoReviewAverage(rs: seq<Review>, product: ProductId)
    requires Ratings(ReviewsOf(rs, product)) == [4.0, 5.0]
    ensures AverageOf(rs, product) == Some(4.5)
  {
    SumAppend([], 4.0);
    assert [] + [4.0] == [4.0];
    SumAppend([4.0], 5.0);
    assert [4.0] + [5.0] == [4.0, 5.0];
  }

  /** The scenario end to end: the review is created, the product's stored
      average moves from 4.5 to 4, and the new review is listed first. */
  lemma ThirdReviewScenario(s: Store, caller: UserId, body: ReviewBody, product: ProductId,
                            comment: string, now: int)
    requires product in s.products
    requires Ratings(ReviewsOf(s.reviews, product)) == [4.0, 5.0]
    requires s.products[product].averageRating == AverageOf(s.reviews, product)
    requires !HasReviewBy(s.reviews, caller, product)
    requires RatedThree(body, product, comment)
    requires forall i :: 0 <= i < |s.reviews| ==> s.reviews[i].createdAt < now
    ensures s.products[product].averageRating == Some(4.5)
    ensures var r := CreateReview(s, caller, body, now);
            && r.reply == Created(Review(caller, product, 3.0, comment, now))
            && r.store.products[product].averageRating == Some(4.0)
            && GetProductReviews(r.store, product).reply.payload[0] == r.reply.payload
  {
    TwoReviewAverage(s.reviews, product);
    ThirdReviewAccepted(s, caller, body, product, comment, now);
    var r := CreateReview(s, caller, body, now);
    ThirdReviewAverage(s.reviews, r.reply.payload, product);
    NewReviewListedFirst(s, caller, body, now);
  }
}
