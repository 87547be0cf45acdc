# Honest Finds market: reviews, products, language and category filter

This project models the core of a small product-review marketplace.

- The backend's review flow (`backend/controllers/reviewController.js`):
  - checks a review request's fields;
  - checks that the product exists and that the caller has not reviewed it yet;
  - stores the review through the schema of `backend/models/Review.js`, with its validators, its `trim` setter and its unique index on (user, product);
  - recomputes the product's average rating from all of the product's reviews;
  - lists a product's reviews newest first.
- The product controller (`backend/controllers/productController.js`): listing all products, fetching one product with its reviews, and creating a product.
- The frontend's language context (`src/contexts/LanguageContext.tsx`): the Arabic and English string tables, the toggle, the document direction and the `t` lookup with key fallback.
- The home page's category filter over its mock product list (`src/pages/Index.tsx`).

Each controller is a pure function from a `Store` (the product map and the review sequence) and a request to a `Step`. A `Step` holds the store afterwards and the reply. A reply is a 200 or 201 payload, or a refusal with its message. The store invariant `Store.Valid` says:

- every review satisfies the schema;
- every review names an existing product;
- no user has two reviews of one product;
- every product's stored average is the mean of its reviews' ratings.

Both writing controllers are proved to keep it.

The modules follow the source:

- `Results`: `Option` and `Result`.
- `Js`: JavaScript truthiness and `String.prototype.trim`.
- `Seqs`: filter and descending sort, each with its proofs.
- `ReviewModel`: the review schema.
- `Store`: the collections, averages and invariant.
- `Http`: replies and status codes.
- `ReviewController` and `ProductController`.
- `ReviewScenario`: a worked three-review example.
- `Translations` and `LanguageContext`.
- `IndexPage`.

Choices that depart from a literal reading:

- Ratings are `real`. `Review.js` declares the rating a `Number` with `min: 1` and `max: 5` and no integer check, so the model accepts 4.5.
- Averages are exact rational means. `Sum` folds in the order of `reduce`.
- The request fields are `Option`s. A field counts as present when it is truthy: a string must be non-empty and a number must be non-zero.
- `createdAt` is the clock reading `now`, passed in as a parameter.
- The `_id` of a new product is the parameter `freshId`.

## Model

| member | source | states |
|---|---|---|
| Js.TruthyText | backend/controllers/reviewController.js:12 | a string field passes `!field` exactly when it is present and non-empty |
| Js.TruthyNumber | backend/controllers/reviewController.js:12 | a number field passes `!field` exactly when it is present and non-zero |
| ReviewController.FieldsPresent | backend/controllers/reviewController.js:12 | the review body passes the missing-fields check exactly when `productId`, `rating` and `comment` are all truthy |
| ReviewController.DraftOf | backend/controllers/reviewController.js:32-37 | the document handed to `Review.create` carries the authenticated caller and the body's product id, rating and comment as sent; trimming is left to the schema |
| ProductController.FieldsPresent | backend/controllers/productController.js:49 | the product body passes the missing-fields check exactly when `title`, `description`, `imageURL` and `category` are all truthy |
| ReviewModel.HasReviewBy | backend/controllers/reviewController.js:23-28 | `Review.findOne({ userId, productId })` finds a document exactly when some stored review has that user and that product |
| ReviewModel.Violations | backend/models/Review.js:15-25 | a draft passes validation exactly when its rating is in [1, 5] and its trimmed comment is non-empty; `min` fails exactly when the rating is below 1, `max` exactly when it is above 5, and "comment required" exactly when the comment is all whitespace |
| ReviewModel.WellFormed | backend/models/Review.js:15-25 | what the validators and the `trim` setter guarantee of a stored review: a rating in [1, 5] and a non-empty comment that is already trimmed |
| ReviewModel.UniquePairs | backend/models/Review.js:33 | the unique index: no two stored reviews share a (user, product) pair |
| ReviewModel.Insert | backend/models/Review.js:4-33 | `Review.create` succeeds exactly when the validators pass and no stored review has the same (user, product); on success the trimmed, timestamped review is appended; otherwise the error is the validation failure or, when validation passed, the duplicate key |
| ReviewModel.InsertKeepsSchema | backend/models/Review.js:15-33 | a successful insert keeps every review well-formed and every (user, product) pair unique |
| ReviewModel.UniquePairsAppend | backend/models/Review.js:33 | appending a review whose (user, product) pair is not stored keeps the unique index |
| Js.TrimStart | backend/models/Review.js:24 | the result is a suffix of the input, what was removed is all whitespace, and the result does not start with whitespace |
| Js.IsWhitespace | backend/models/Review.js:24 | the characters the `trim` setter strips: ECMAScript WhiteSpace and LineTerminator code points |
| Js.TrimEnd | backend/models/Review.js:24 | the result is a prefix of the input, what was removed is all whitespace, and the result does not end with whitespace |
| Js.Trim | backend/models/Review.js:24 | the trimmed comment is no longer than the input and neither starts nor ends with whitespace |
| Js.TrimIsInfix | backend/models/Review.js:24 | trimming removes only whitespace, and only from the two ends of the comment |
| Js.TrimIdempotent | backend/models/Review.js:24 | trimming a trimmed comment changes nothing |
| Js.TrimEmptyIff | backend/models/Review.js:21-25 | a comment trims to "" exactly when it is all whitespace, so a whitespace-only comment passes the controller's truthiness check but fails the schema |
| Seqs.Filter | src/pages/Index.tsx:111 | `Array.prototype.filter`: the result is no longer than the input; its members, order and counts are stated by `FilterMembers`, `FilterIsSubsequence` and `FilterCounts` |
| Seqs.InsertDesc | backend/controllers/reviewController.js:60 | inserting into a newest-first list keeps it newest first and adds exactly the one element |
| Seqs.SortDesc | backend/controllers/reviewController.js:60 | the sorted list is in descending `createdAt` order and is a permutation of the input |
| Seqs.FilterIsSubsequence | src/pages/Index.tsx:111 | a filter keeps the input order: its result is a subsequence of the input |
| Seqs.FilterCounts | src/pages/Index.tsx:111 | a filter's result holds each kept element as often as the input does, and no other element |
| Store.ReviewsOf | backend/controllers/reviewController.js:40 | `Review.find({ productId })` over the stored reviews, in stored order; its members are stated by `ReviewsOfMembers` |
| Store.AverageOf | backend/controllers/reviewController.js:40-41 | the sum of the product's ratings divided by their number, or none when there are no reviews; bounds and updates are stated by `AverageOfBounds` and `AverageOfAppend` |
| Store.Sum | backend/controllers/reviewController.js:41 | the `reduce` sum of the ratings, each rating added to the accumulator left to right from 0; `SumAppend` and `SumBounds` state its properties |
| Store.Valid | backend/models/Review.js:15-33 | the store invariant: every review is well-formed, names an existing product, has a unique (user, product) pair, and every product's average is the mean of its reviews |
| Store.EmptyIsValid | backend/models/Review.js:15-33 | the empty store, before any request, satisfies the invariant |
| Store.NewestFirst | backend/controllers/reviewController.js:58-60 | the product's reviews sorted by `createdAt` descending, with none lost or added |
| Store.ReviewsOfMembers | backend/controllers/reviewController.js:40 | `Review.find({ productId })` returns exactly the stored reviews naming the product |
| Store.SumBounds | backend/controllers/reviewController.js:41 | a sum of n ratings in [1, 5] lies in [n, 5n] |
| Store.MeanBounds | backend/controllers/reviewController.js:41 | the mean of ratings in [1, 5] lies in [1, 5] |
| Store.IncrementalMean | backend/controllers/reviewController.js:41 | the mean after one more rating is the running-mean update (n * mean + rating) / (n + 1) of the previous mean |
| Store.AverageOfAppend | backend/controllers/reviewController.js:40-43 | a new review of the product sets an unset average to its own rating, and otherwise moves the average by the running-mean update |
| Store.AverageOfBounds | backend/controllers/reviewController.js:40-43 | the recomputed average exists exactly when the product has a review, and then lies in [1, 5] |
| Store.AverageInRange | backend/controllers/reviewController.js:40-43 | in a valid store every stored average lies in [1, 5] |
| Store.NoReviewsForUnknownProduct | backend/controllers/reviewController.js:16-20 | in a valid store no review names a product that does not exist |
| Http.StatusOf | backend/controllers/reviewController.js:12-50 | 200 exactly for a plain reply, 201 for a created one, 400 for a bad request, 404 for a missing product and 500 for a server error; a status is at least 400 exactly when the request was refused |
| ReviewController.CreateReviewStatus | backend/controllers/reviewController.js:12-49 | `createReview` answers 400 exactly for a falsy field or a repeat review, 404 exactly for a missing product, 500 exactly when the schema rejects the draft, and 201 exactly when everything passes |
| ReviewController.Record | backend/controllers/reviewController.js:39-43 | after the insert, only the reviewed product changes, and only its average, which becomes the mean of all of its reviews, the new one included |
| ReviewController.CreateReview | backend/controllers/reviewController.js:8-51 | 400 "Please add all fields" exactly when a field is falsy; 404 exactly when the product is missing; 400 "already reviewed" exactly when the caller has a review of it; 500 exactly when the schema rejects the draft, with the validation error and never the duplicate key; 201 exactly when every check passes; on 201 the trimmed, timestamped review is appended and only the product's average changes; every refusal leaves the store unchanged |
| ReviewController.GetProductReviews | backend/controllers/reviewController.js:56-66 | the reply lists exactly the stored reviews naming the product, each as often as stored, newest first, and changes nothing |
| ReviewController.RecordKeepsValid | backend/controllers/reviewController.js:32-43 | recording a well-formed review of an existing product by a user who has not reviewed it keeps the store invariant |
| ReviewController.CreateReviewKeepsValid | backend/controllers/reviewController.js:8-51 | every review request, accepted or refused, keeps the store invariant |
| ReviewController.RecordRunningMean | backend/controllers/reviewController.js:40-43 | recomputing over all reviews agrees with a running-mean update of the previous stored average |
| ReviewController.AcceptedWhenChecksPass | backend/controllers/reviewController.js:32-47 | a request that passes every check is answered 201 with the body's values and the trimmed comment, appended to the reviews |
| ReviewController.SecondReviewRejected | backend/controllers/reviewController.js:22-30 | after a user's review of a product is stored, every further review of it by that user is refused with "already reviewed" and leaves the store unchanged |
| ReviewController.NewReviewListedFirst | backend/controllers/reviewController.js:58-60 | a review created after every stored one is listed first for its product |
| ReviewController.NewestHeadsListing | backend/controllers/reviewController.js:58-60 | a stored review strictly newer than every other heads its product's newest-first listing |
| ReviewScenario.ThirdReviewAccepted | backend/controllers/reviewController.js:12-37 | a rating-3 review with a clean comment from a user who has not yet reviewed an existing product is created as sent |
| ReviewScenario.ThirdReviewAverage | backend/controllers/reviewController.js:40-43 | earlier ratings 4 and 5 plus a new 3 average to 4 |
| ReviewScenario.TwoReviewAverage | backend/controllers/reviewController.js:40-43 | ratings 4 and 5 average to 4.5 |
| ReviewScenario.ThirdReviewScenario | backend/controllers/reviewController.js:8-60 | the end-to-end example: with a current stored average over ratings 4 and 5, that average is 4.5; after the new rating-3 review it is 4; the review is created and listed first |
| ProductController.GetProducts | backend/controllers/productController.js:8-15 | the reply lists every stored product unchanged and changes nothing |
| ProductController.GetProductById | backend/controllers/productController.js:20-40 | 404 "Product not found" exactly when the id is unknown; otherwise the product with exactly its reviews, newest first; the store is unchanged |
| ProductController.CreateProduct | backend/controllers/productController.js:45-65 | 400 "Please add all fields" exactly when a field is falsy; 500 exactly when the id is taken; 201 exactly when the fields are truthy and the id is free; on 201 the product holds the body's fields, the caller as seller and no average, and nothing else changes |
| ProductController.ProductStatus | backend/controllers/productController.js:20-65 | `getProductById` answers 404 exactly for an unknown id and 200 otherwise; `createProduct` answers 400 exactly for a falsy field, 500 exactly for a taken id and 201 otherwise |
| ProductController.CreateProductKeepsValid | backend/controllers/productController.js:53-59 | creating a product keeps the store invariant |
| ProductController.DetailListsProductReviews | backend/controllers/productController.js:29-31 | a product's detail lists the same reviews, in the same order, as the review listing endpoint |
| ProductController.CreatedProductListed | backend/controllers/productController.js:8-15 | after a product is created, the product listing holds it with the fields as created and is exactly one entry longer |
| ProductController.CreatedProductFetchable | backend/controllers/productController.js:53-61 | a newly created product can be fetched by its id, with the fields as sent and no reviews |
| LanguageContext.TablesShareKeys | src/contexts/LanguageContext.tsx:12-141 | the Arabic and English tables define the same keys |
| LanguageContext.TableFacts | src/contexts/LanguageContext.tsx:12-141 | no table maps a key to the empty string, so the `\|\| key` fallback fires only for missing keys |
| LanguageContext.Toggle | src/contexts/LanguageContext.tsx:159-163 | toggling always changes the language |
| LanguageContext.InitialLanguage | src/contexts/LanguageContext.tsx:146 | the provider starts in Arabic |
| LanguageContext.StartsRightToLeft | src/contexts/LanguageContext.tsx:146-155 | the starting language is Arabic, so the document starts right to left |
| LanguageContext.ToggleTwice | src/contexts/LanguageContext.tsx:159-163 | toggling twice restores the language |
| LanguageContext.DirectionOf | src/contexts/LanguageContext.tsx:155 | the document is right-to-left exactly when the language is Arabic |
| LanguageContext.ToggleFlipsDirection | src/contexts/LanguageContext.tsx:155-163 | toggling the language always flips the document direction |
| LanguageContext.LookupOrKey | src/contexts/LanguageContext.tsx:166 | a key in the table gets its entry; any other key is returned as it is |
| LanguageContext.Translate | src/contexts/LanguageContext.tsx:165-167 | `t(key)` is the current table's entry when the key is in it, and the key itself otherwise |
| LanguageContext.TranslatedInBothOrNeither | src/contexts/LanguageContext.tsx:12-141 | a key is translated in one language exactly when it is translated in the other |
| LanguageContext.LookupOrKeyAsWritten | src/contexts/LanguageContext.tsx:166 | `table[key] \|\| key` as written: a table entry when the key is own, the inherited member for an `Object.prototype` name, and otherwise the key |
| LanguageContext.PropertyOf | src/contexts/LanguageContext.tsx:166 | a property read on a table object yields its own entry exactly when the key is in the table, an inherited `Object.prototype` member exactly when the key is one of those names and not in the table, and `undefined` otherwise |
| LanguageContext.TranslateAsWritten | src/contexts/LanguageContext.tsx:166 | the property read as written: a table entry, or else the key, except that an inherited `Object.prototype` member is truthy and is returned instead |
| LanguageContext.InheritedNameEscapesFallback | src/contexts/LanguageContext.tsx:166 | `t("toString")` as written returns the inherited member, while the intended lookup returns "toString" |
| LanguageContext.AsWrittenAgreesOffPrototype | src/contexts/LanguageContext.tsx:166 | for every key that is not an `Object.prototype` name, the lookup as written and the intended lookup agree |
| IndexPage.ByCategory | src/pages/Index.tsx:106-113 | "all" shows the whole list; any other category shows only products of that category, all taken from the list |
| IndexPage.HandleCategoryChange | src/pages/Index.tsx:106-113 | the chosen category becomes the selection, and the products shown are the mock list filtered by it, whatever was shown before |
| IndexPage.MockProducts | src/pages/Index.tsx:10-100 | the six mock products in source order, with ids 1 to 6 and categories programming, design, marketing, books, language and electronics |
| IndexPage.InitialState | src/pages/Index.tsx:103-104 | the page starts with "all" selected and the whole mock list shown |
| IndexPage.ChoosingAllRestoresInitial | src/pages/Index.tsx:103-109 | choosing "all" from any state gives back exactly the initial state |
| IndexPage.ByCategoryComplete | src/pages/Index.tsx:111 | every product of the chosen category is shown, as often as it occurs in the list, and no other product |
| IndexPage.ByCategoryKeepsOrder | src/pages/Index.tsx:111 | the products shown keep the list's order |
| IndexPage.ByCategoryIdempotent | src/pages/Index.tsx:111 | filtering the shown products again by the same category changes nothing |
| IndexPage.BusinessShowsNothing | src/pages/Index.tsx:10-100 | the "business" category matches none of the mock products, so choosing it shows nothing |

## Left out

- Authentication and roles are not modelled. `req.user._id` is the parameter `caller`, and whether the caller may act as a user or a seller is decided by middleware outside the controllers.
- `populate('userId', 'name')` and `populate('sellerId', 'name email')` are not modelled. They only add the user's name and email to the reply.
- The route files are not modelled. They only bind paths to controllers.
- Malformed ids are not modelled. The model's ids are abstract strings, so the `CastError` that `findById` throws on a malformed ObjectId, answered with 500, does not arise.
- Database failures other than a schema rejection are not modelled. Every handler's `catch` answers 500 on any thrown error (reviewController.js:48-50 and 63-65; productController.js:12-14, 37-39 and 62-64). In particular, a failure after `Review.create` succeeds (reviewController.js:40-45) answers 500 with the review stored and the average stale. The model's claims that `GetProductReviews`, `GetProducts` and `GetProductById` always answer 200 for a known product or listing, and that every `CreateReview` refusal leaves the store unchanged, hold only because such failures are absent.
- The validators of `backend/models/Product.js` are not modelled. `CreateProduct` assumes `Product.create` accepts any body whose four fields are truthy.
- `getProducts` answers an array in the collection's order; the model answers the product map, so the listing order is not modelled.
- Ratings are only numbers. A `NaN` rating, or a numeric string that Mongoose casts, is out of scope.
- Every controller is one atomic step. So the window between the review insert and the average write, in which a concurrent reader sees the old average, is not modelled, and neither is the last-write-wins race between two concurrent reviews.
- `backend/models/Product.js` is not part of this model. A product's `averageRating` is `None` until the review flow writes it, standing for the unset field; any default that Product.js may declare, such as 0, is not modelled.
- Store.NewestFirst: reviews with equal `createdAt` may come in any order, as MongoDB does not fix the order of ties; the contract states only descending order and permutation.
- Seqs.SortDesc: the same tie-order freedom as `Store.NewestFirst`.
- The `localStorage` read and write of the saved language, and the `lang` attribute write, are not modelled. The initial language is Arabic (`LanguageContext.InitialLanguage`), as the state is first created.
- `useLanguage` throwing outside a provider is not modelled, and neither is any React rendering.
- Of the mock products only `id` and `category` are modelled. The other fields are display data that no modelled operation reads.
- The initial page state is not modelled beyond `IndexPage.InitialState`, which has category "all" and the whole list.
- LanguageContext.TranslatedInBothOrNeither: states only that both languages have the same keys. That an untranslated key shows as itself follows from `LanguageContext.Translate`'s own contract.

## Findings

| source | as written | input that shows it | evidently intended | confidence | as-written member | corrected member |
|---|---|---|---|---|---|---|
| src/contexts/LanguageContext.tsx:166 | `translations[language][key] \|\| key` reads the key as a property of a plain object, so names inherited from `Object.prototype` are found too | `t("toString")` returns the `Object.prototype.toString` function, which is truthy, instead of the string "toString" | `t` returns a string: the table's own entry, or the key when the table has none | not executed; the inherited lookup is standard JavaScript semantics | LanguageContext.InheritedNameEscapesFallback | LanguageContext.Translate |
