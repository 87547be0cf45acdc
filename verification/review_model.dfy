/** The review schema (backend/models/Review.js): the stored record, the
    validators Mongoose runs before an insert, and the unique index on
    (userId, productId). */
module ReviewModel {
  import opened Results
  import opened Js

  type UserId = string
  type ProductId = string

  /** A stored review; `createdAt` is a clock reading in milliseconds. */
  datatype Review = Review(userId: UserId, productId: ProductId, rating: real,
                           comment: string, createdAt: int)

  /** The document handed to `Review.create`, before setters and defaults. */
  datatype Draft = Draft(userId: UserId, productId: ProductId, rating: real, comment: string)

  /** A schema validator that rejected a draft. */
  datatype Violation = RatingBelowMin | RatingAboveMax | CommentRequired

  /** What the database layer throws: a validation error listing every failed
      validator, or a unique-index violation (MongoDB's E11000). */
  datatype DbError = ValidationFailed(violations: set<Violation>) | DuplicateKey

  const MinRating: real := 1.0
  const MaxRating: real := 5.0

  /** The validators that fail on `d` once the `trim` setter has run on its comment. */
  function Violations(d: Draft): (v: set<Violation>)
    ensures v == {} <==> MinRating <= d.rating <= MaxRating && Trim(d.comment) != ""
    ensures RatingBelowMin in v <==> d.rating < MinRating
    ensures RatingAboveMax in v <==> d.rating > MaxRating
    ensures CommentRequired in v <==> AllWhitespace(d.comment)
  {
    TrimEmptyIff(d.comment);
    (if d.rating < MinRating then {RatingBelowMin} else {})
    + (if d.rating > MaxRating then {RatingAboveMax} else {})
    + (if Trim(d.comment) == "" then {CommentRequired} else {})
  }

  /** What the schema guarantees of every stored review: a rating within the
      bounds and a non-empty comment that is already trimmed. */
  predicate WellFormed(r: Review) {
    && MinRating <= r.rating <= MaxRating
    && r.comment != ""
    && Trim(r.comment) == r.comment
  }

  ghost predicate AllWellFormed(rs: seq<Review>) {
    forall i :: 0 <= i < |rs| ==> WellFormed(rs[i])
  }

  /** The unique index: no two stored reviews share (userId, productId). */
  ghost predicate UniquePairs(rs: seq<Review>) {
    forall i, j :: 0 <= i < j < |rs| ==>
      !(rs[i].userId == rs[j].userId && rs[i].productId == rs[j].productId)
  }

  /** `Review.findOne({ userId, productId })` finds something. */
  predicate HasReviewBy(rs: seq<Review>, user: UserId, product: ProductId) {
    exists i :: 0 <= i < |rs| && rs[i].userId == user && rs[i].productId == product
  }

  /** Appending a review whose pair is not yet stored keeps the unique index. */
  lemma UniquePairsAppend(rs: seq<Review>, x: Review)
    requires UniquePairs(rs)
    requires !HasReviewBy(rs, x.userId, x.productId)
    ensures UniquePairs(rs + [x])
  {
    var rs' := rs + [x];
    forall i, j | 0 <= i < j < |rs'|
      ensures !(rs'[i].userId == rs'[j].userId && rs'[i].productId == rs'[j].productId)
    {
      if j == |rs| {
        assert rs'[i] == rs[i];
      }
    }
  }

  /** `Review.create(d)` at clock reading `now`: the validators run first, then
      the unique index; on success the trimmed, timestamped review is appended. */
  function Insert(rs: seq<Review>, d: Draft, now: int): (r: Result<seq<Review>, DbError>)
    ensures r.Success? <==> Violations(d) == {} && !HasReviewBy(rs, d.userId, d.productId)
    ensures r.Success? ==> r.value == rs + [Review(d.userId, d.productId, d.rating, Trim(d.comment), now)]
    ensures r.Failure? && Violations(d) != {} ==> r.error == ValidationFailed(Violations(d))
    ensures r.Failure? && Violations(d) == {} ==> r.error == DuplicateKey
  {
    var v := Violations(d);
    if v != {} then Failure(ValidationFailed(v))
    else if HasReviewBy(rs, d.userId, d.productId) then Failure(DuplicateKey)
    else Success(rs + [Review(d.userId, d.productId, d.rating, Trim(d.comment), now)])
  }

  /** A successful insert keeps every schema guarantee of the collection. */
  lemma InsertKeepsSchema(rs: seq<Review>, d: Draft, now: int)
    requires AllWellFormed(rs) && UniquePairs(rs)
    requires Insert(rs, d, now).Success?
    ensures AllWellFormed(Insert(rs, d, now).value)
    ensures UniquePairs(Insert(rs, d, now).value)
  {
    var x := Review(d.userId, d.productId, d.rating, Trim(d.comment), now);
    assert Insert(rs, d, now).value == rs + [x];
    assert Violations(d) == {};
    assert x.comment != "" by { assert CommentRequired !in Violations(d); }
    assert Trim(x.comment) == x.comment by { TrimIdempotent(d.comment); }
    assert MinRating <= x.rating <= MaxRating by {
      assert RatingBelowMin !in Violations(d) && RatingAboveMax !in Violations(d);
    }
    assert WellFormed(x);
    forall i | 0 <= i < |rs + [x]| ensures WellFormed((rs + [x])[i]) {
      if i < |rs| { assert (rs + [x])[i] == rs[i]; }
    }
    UniquePairsAppend(rs, x);
  }
}
