/** The database both controllers work on: the product collection keyed by id,
    the review collection in insertion order, and the facts relating them that
    every controller step keeps. */
module Store {
  import opened Results
  import opened Seqs
  import opened ReviewModel

  /** A stored product. `averageRating` is `None` until the review flow first
      writes it. */
  datatype Product = Product(title: string, description: string, imageURL: string,
                             category: string, sellerId: UserId,
                             averageRating: Option<real>)

  datatype Store = Store(products: map<ProductId, Product>, reviews: seq<Review>)

  /** `Review.find({ productId })`: the product's reviews in insertion order. */
  function ReviewsOf(rs: seq<Review>, product: ProductId): seq<Review>
  {
    Filter(rs, (x: Review) => x.productId == product)
  }

  /** The `rating` field of each review, in order. */
  function Ratings(rs: seq<Review>): (xs: seq<real>)
    ensures |xs| == |rs|
    ensures forall i :: 0 <= i < |rs| ==> xs[i] == rs[i].rating
  {
    seq(|rs|, i requires 0 <= i < |rs| => rs[i].rating)
  }

  /** `xs.reduce((acc, x) => x + acc, 0)`, folded left to right. */
  function Sum(xs: seq<real>): real
    decreases |xs|
  {
    if |xs| == 0 then 0.0 else xs[|xs| - 1] + Sum(xs[..|xs| - 1])
  }

  /** The arithmetic mean, exact rather than in floating point. */
  function Mean(xs: seq<real>): real
    requires |xs| > 0
  {
    Sum(xs) / (|xs| as real)
  }

  /** The average the review flow computes for `product` over `rs`, or `None`
      when the product has no reviews and so has never been written. */
  function AverageOf(rs: seq<Review>, product: ProductId): Option<real>
  {
    var xs := Ratings(ReviewsOf(rs, product));
    if |xs| == 0 then None else Some(Mean(xs))
  }

  /** `.sort({ createdAt: -1 })`: newest first. */
  function NewestFirst(rs: seq<Review>): (r: seq<Review>)
    ensures SortedDesc(r, (x: Review) => x.createdAt)
    ensures multiset(r) == multiset(rs)
  {
    SortDesc(rs, (x: Review) => x.createdAt)
  }

  /** Every review names a product of the store. */
  ghost predicate RefersToProducts(s: Store) {
    forall i :: 0 <= i < |s.reviews| ==> s.reviews[i].productId in s.products
  }

  /** The store invariant: the schema holds of every review, every review names
      an existing product, the unique index holds, and each product's stored
      average is the mean of its reviews' ratings. */
  ghost predicate Valid(s: Store) {
    && AllWellFormed(s.reviews)
    && RefersToProducts(s)
    && UniquePairs(s.reviews)
    && AveragesCurrent(s)
  }

  /** Each product's stored average is the mean of its reviews' ratings. */
  ghost predicate AveragesCurrent(s: Store) {
    forall id :: id in s.products ==> s.products[id].averageRating == AverageOf(s.reviews, id)
  }

  /** A review is listed for `product` exactly when it is stored and names it. */
  lemma ReviewsOfMembers(rs: seq<Review>, product: ProductId, x: Review)
    ensures x in ReviewsOf(rs, product) <==> x in rs && x.productId == product
  {
    FilterMembers(rs, (y: Review) => y.productId == product, x);
  }

  /** The store before any request: no products, no reviews. */
  lemma EmptyIsValid()
    ensures Valid(Store(map[], []))
  {
  }

  lemma RatingsAppend(rs: seq<Review>, x: Review)
    ensures Ratings(rs + [x]) == Ratings(rs) + [x.rating]
  {
  }

  lemma SumAppend(xs: seq<real>, x: real)
    ensures Sum(xs + [x]) == Sum(xs) + x
  {
    assert (xs + [x])[..|xs|] == xs;
  }

  /** Appending a review changes the review list of its own product only. */
  lemma ReviewsOfAppend(rs: seq<Review>, x: Review, product: ProductId)
    ensures ReviewsOf(rs + [x], product)
         == if x.productId == product then ReviewsOf(rs, product) + [x] else ReviewsOf(rs, product)
  {
    FilterAppend(rs, x, (y: Review) => y.productId == product);
  }

  /** Sum bounds: each term lies in [lo, hi], so the sum lies in [n*lo, n*hi]. */
  lemma {:induction false} SumBounds(xs: seq<real>, lo: real, hi: real)
    requires forall i :: 0 <= i < |xs| ==> lo <= xs[i] <= hi
    ensures (|xs| as real) * lo <= Sum(xs) <= (|xs| as real) * hi
    decreases |xs|
  {
    if |xs| > 0 {
      SumBounds(xs[..|xs| - 1], lo, hi);
    }
  }

  /** A mean of values in [lo, hi] lies in [lo, hi]. */
  lemma MeanBounds(xs: seq<real>, lo: real, hi: real)
    requires |xs| > 0
    requires forall i :: 0 <= i < |xs| ==> lo <= xs[i] <= hi
    ensures lo <= Mean(xs) <= hi
  {
    SumBounds(xs, lo, hi);
    var n := |xs| as real;
    assert Mean(xs) * n == Sum(xs);
  }

  /** The mean of n values with mean `prev` once one more value `r` joins them. */
  function RunningMean(prev: real, n: nat, r: real): real
  {
    ((n as real) * prev + r) / ((n + 1) as real)
  }

  /** Recomputing the mean over all values agrees with a running-mean update. */
  lemma IncrementalMean(xs: seq<real>, r: real)
    requires |xs| > 0
    ensures Mean(xs + [r]) == RunningMean(Mean(xs), |xs|, r)
  {
    SumAppend(xs, r);
    var n := |xs| as real;
    assert (n * Mean(xs)) == Sum(xs);
  }

  /** Appending a review of `product` moves its computed average as a running
      mean: from none to the new rating, or from the mean of n ratings to
      (n * mean + rating) / (n + 1). */
  lemma AverageOfAppend(rs: seq<Review>, x: Review, product: ProductId)
    requires x.productId == product
    ensures var n := |ReviewsOf(rs, product)|;
            && (n == 0 ==> AverageOf(rs, product) == None && AverageOf(rs + [x], product) == Some(x.rating))
            && (n > 0 ==> && AverageOf(rs, product).Some?
                          && AverageOf(rs + [x], product)
                             == Some(RunningMean(AverageOf(rs, product).value, n, x.rating)))
  {
    var prior := Ratings(ReviewsOf(rs, product));
    ReviewsOfAppend(rs, x, product);
    RatingsAppend(ReviewsOf(rs, product), x);
    assert Ratings(ReviewsOf(rs + [x], product)) == prior + [x.rating];
    if |prior| == 0 {
      assert prior + [x.rating] == [x.rating];
      SumAppend([], x.rating);
    } else {
      IncrementalMean(prior, x.rating);
    }
  }

  /** Over well-formed reviews the computed average, when there is one, lies
      in [1, 5]; there is one exactly when the product has a review. */
  lemma AverageOfBounds(rs: seq<Review>, id: ProductId)
    requires AllWellFormed(rs)
    ensures AverageOf(rs, id).None? <==> |ReviewsOf(rs, id)| == 0
    ensures AverageOf(rs, id).Some? ==> MinRating <= AverageOf(rs, id).value <= MaxRating
  {
    var inRange := (x: Review) => MinRating <= x.rating <= MaxRating;
    assert forall i :: 0 <= i < |rs| ==> inRange(rs[i]);
    FilterKeepsProperty(rs, (x: Review) => x.productId == id, inRange);
    var sel := ReviewsOf(rs, id);
    var xs := Ratings(sel);
    assert forall i :: 0 <= i < |xs| ==> inRange(sel[i]);
    if |xs| > 0 {
      MeanBounds(xs, MinRating, MaxRating);
    }
  }

  /** In a valid store every product that has a review carries an average in
      [1, 5]; one without reviews carries none. */
  lemma AverageInRange(s: Store, id: ProductId)
    requires Valid(s)
    requires id in s.products
    ensures |ReviewsOf(s.reviews, id)| == 0 <==> s.products[id].averageRating.None?
    ensures s.products[id].averageRating.Some? ==>
              MinRating <= s.products[id].averageRating.value <= MaxRating
  {
    AverageOfBounds(s.reviews, id);
  }

  /** In a valid store a product id no product carries has no reviews. */
  lemma NoReviewsForUnknownProduct(s: Store, id: ProductId)
    requires RefersToProducts(s)
    requires id !in s.products
    ensures ReviewsOf(s.reviews, id) == []
  {
    FilterKeepsNone(s.reviews, (x: Review) => x.productId == id);
  }
}
