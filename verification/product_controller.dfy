/** backend/controllers/productController.js: listing products, fetching one
    product with its reviews, and creating a product. */
module ProductController {
  import opened Results
  import opened Js
  import opened Seqs
  import opened ReviewModel
  import opened Store
  import opened Http
  import ReviewController

  /** The JSON body of `POST /api/products`; any field may be absent. */
  datatype ProductBody = ProductBody(title: Option<string>, description: Option<string>,
                                     imageURL: Option<string>, category: Option<string>)

  /** A product together with its `_id`, as the API returns it. */
  datatype Listing = Listing(id: ProductId, product: Product)

  /** The `getProductById` payload: the product's fields plus its `reviews`. */
  datatype Detail = Detail(id: ProductId, product: Product, reviews: seq<Review>)

  /** `title && description && imageURL && category` is truthy. */
  predicate FieldsPresent(b: ProductBody) {
    && TruthyText(b.title) && TruthyText(b.description)
    && TruthyText(b.imageURL) && TruthyText(b.category)
  }

  /** `getProducts`: the whole product collection. */
  function GetProducts(s: Store): (r: Step<map<ProductId, Product>>)
    ensures r.store == s
    ensures r.reply.Ok?
    ensures r.reply.payload.Keys == s.products.Keys
    ensures forall id :: id in s.products ==> r.reply.payload[id] == s.products[id]
  {
    Step(s, Ok(s.products))
  }

  /** `getProductById`: 404 for an unknown id, otherwise the product with all
      of its reviews, newest first. */
  function GetProductById(s: Store, id: ProductId): (r: Step<Detail>)
    ensures r.store == s
    ensures r.reply.Refused? <==> id !in s.products
    ensures r.reply.Refused? ==> r.reply.failure == NotFound(ProductNotFound)
    ensures !r.reply.Created?
    ensures r.reply.Ok? ==>
              && r.reply.payload.id == id
              && r.reply.payload.product == s.products[id]
              && SortedDesc(r.reply.payload.reviews, (x: Review) => x.createdAt)
              && multiset(r.reply.payload.reviews) == multiset(ReviewsOf(s.reviews, id))
  {
    if id !in s.products then Step(s, Refused(NotFound(ProductNotFound)))
    else Step(s, Ok(Detail(id, s.products[id], NewestFirst(ReviewsOf(s.reviews, id)))))
  }

  /** `createProduct` by the authenticated seller `caller`; `freshId` is the
      `_id` the driver generates for the new document. */
  function CreateProduct(s: Store, caller: UserId, body: ProductBody, freshId: ProductId): (r: Step<Listing>)
    ensures r.reply.Refused? ==> r.store == s
    ensures r.reply == Refused(BadRequest(MissingFields)) <==> !FieldsPresent(body)
    ensures r.reply == Refused(ServerError(DuplicateKey)) <==> FieldsPresent(body) && freshId in s.products
    ensures r.reply.Created? <==> FieldsPresent(body) && freshId !in s.products
    ensures !r.reply.Ok?
    ensures r.reply.Created? ==>
              && FieldsPresent(body)
              && freshId !in s.products
              && r.reply.payload.id == freshId
              && var p := r.reply.payload.product;
              && p.title == body.title.value && p.description == body.description.value
              && p.imageURL == body.imageURL.value && p.category == body.category.value
              && p.sellerId == caller
              && p.averageRating.None?
              && r.store.products == s.products[freshId := p]
              && r.store.reviews == s.reviews
  {
    if !FieldsPresent(body) then
      Step(s, Refused(BadRequest(MissingFields)))
    else if freshId in s.products then
      Step(s, Refused(ServerError(DuplicateKey)))
    else
      var p := Product(body.title.value, body.description.value, body.imageURL.value,
                       body.category.value, caller, None);
      Step(Store(s.products[freshId := p], s.reviews), Created(Listing(freshId, p)))
  }

  /** The status lines of the product endpoints: `getProductById` answers 404
      exactly for an unknown id and 200 otherwise; `createProduct` answers 400
      for a falsy field, 500 for a taken id and 201 otherwise. */
  lemma ProductStatus(s: Store, caller: UserId, body: ProductBody, freshId: ProductId, id: ProductId)
    ensures var code := StatusOf(GetProductById(s, id).reply);
            && (code == 404 <==> id !in s.products)
            && (code == 200 <==> id in s.products)
    ensures var code := StatusOf(CreateProduct(s, caller, body, freshId).reply);
            && (code == 400 <==> !FieldsPresent(body))
            && (code == 500 <==> FieldsPresent(body) && freshId in s.products)
            && (code == 201 <==> FieldsPresent(body) && freshId !in s.products)
  {
  }

  /** Creating a product keeps the store invariant: the new product has no
      reviews and no average, and nothing else changes. */
  lemma CreateProductKeepsValid(s: Store, caller: UserId, body: ProductBody, freshId: ProductId)
    requires Valid(s)
    ensures Valid(CreateProduct(s, caller, body, freshId).store)
  {
    var r := CreateProduct(s, caller, body, freshId);
    if r.reply.Created? {
      NoReviewsForUnknownProduct(s, freshId);
      assert AveragesCurrent(r.store);
    }
  }

  /** The two read paths agree: a product's detail page lists exactly what
      `GET /api/reviews/:productId` returns for it. */
  lemma DetailListsProductReviews(s: Store, id: ProductId)
    requires id in s.products
    ensures GetProductById(s, id).reply.Ok?
    ensures GetProductById(s, id).reply.payload.reviews
            == ReviewController.GetProductReviews(s, id).reply.payload
  {
  }

  /** A freshly created product can be fetched by its id, with its fields as
      sent, no reviews and no average. */
  lemma CreatedProductFetchable(s: Store, caller: UserId, body: ProductBody, freshId: ProductId)
    requires Valid(s)
    requires CreateProduct(s, caller, body, freshId).reply.Created?
    ensures var s' := CreateProduct(s, caller, body, freshId).store;
            var d := GetProductById(s', freshId).reply;
            && d.Ok?
            && d.payload.product == CreateProduct(s, caller, body, freshId).reply.payload.product
            && d.payload.reviews == []
  {
    NoReviewsForUnknownProduct(s, freshId);
  }

  /** A newly created product joins the product listing, which grows by one. */
  lemma CreatedProductListed(s: Store, caller: UserId, body: ProductBody, freshId: ProductId)
    requires CreateProduct(s, caller, body, freshId).reply.Created?
    ensures var r := CreateProduct(s, caller, body, freshId);
            var before := GetProducts(s).reply.payload;
            var after := GetProducts(r.store).reply.payload;
            && after.Keys == before.Keys + {freshId}
            && |after| == |before| + 1
            && after[freshId] == r.reply.payload.product
  {
    var r := CreateProduct(s, caller, body, freshId);
    assert r.store.products.Keys == s.products.Keys + {freshId};
    assert |r.store.products.Keys| == |s.products.Keys| + 1;
  }
}
