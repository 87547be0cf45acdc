/** src/pages/Index.tsx: the home page's category filter over its mock product
    list. Only the fields the filter reads are modelled. */
module IndexPage {
  import opened Seqs

  /** A mock product as the filter sees it: its id and its category. */
  datatype MockProduct = MockProduct(id: string, category: string)

  /** The category that stands for "no filter". */
  const AllCategories: string := "all"

  /** The page's mock list, in order. */
  const MockProducts: seq<MockProduct> := [
    MockProduct("1", "programming"),
    MockProduct("2", "design"),
    MockProduct("3", "marketing"),
    MockProduct("4", "books"),
    MockProduct("5", "language"),
    MockProduct("6", "electronics")
  ]

  /** The page's state: the selected category and the products shown. */
  datatype PageState = PageState(selectedCategory: string, filtered: seq<MockProduct>)

  /** The state the page starts in: everything shown under "all". */
  const InitialState: PageState := PageState(AllCategories, MockProducts)

  predicate InCategory(category: string, p: MockProduct) {
    p.category == category
  }

  /** The products of `products` in `category`, or all of them for "all". */
  function ByCategory(products: seq<MockProduct>, category: string): (r: seq<MockProduct>)
    ensures category == AllCategories ==> r == products
    ensures category != AllCategories ==>
              forall i :: 0 <= i < |r| ==> r[i].category == category && r[i] in products
  {
    if category == AllCategories then products
    else
      var r := Filter(products, p => InCategory(category, p));
      assert forall i :: 0 <= i < |r| ==> r[i] in r;
      forall x | x in r ensures x.category == category && x in products {
        FilterMembers(products, p => InCategory(category, p), x);
      }
      r
  }

  /** `handleCategoryChange`: selects `category` and shows the mock products
      in it. The products shown do not depend on the previous state. */
  function HandleCategoryChange(state: PageState, category: string): (r: PageState)
    ensures r.selectedCategory == category
    ensures r.filtered == ByCategory(MockProducts, category)
  {
    PageState(category, ByCategory(MockProducts, category))
  }

  /** Choosing "all" from any state brings the page back to its initial state. */
  lemma ChoosingAllRestoresInitial(state: PageState)
    ensures HandleCategoryChange(state, AllCategories) == InitialState
  {
  }

  /** The filter drops no product of the category: each one occurs in the
      result as often as in the input. */
  lemma ByCategoryComplete(products: seq<MockProduct>, category: string, p: MockProduct)
    requires category != AllCategories
    ensures multiset(ByCategory(products, category))[p]
            == if p.category == category then multiset(products)[p] else 0
  {
    FilterCounts(products, q => InCategory(category, q), p);
  }

  /** The result keeps the products' relative order. */
  lemma ByCategoryKeepsOrder(products: seq<MockProduct>, category: string)
    ensures IsSubsequence(ByCategory(products, category), products)
  {
    if category == AllCategories {
      var idx := seq(|products|, i => i);
      assert EmbedsVia(products, products, idx);
    } else {
      FilterIsSubsequence(products, q => InCategory(category, q));
    }
  }

  /** Filtering the shown products again by the same category changes nothing. */
  lemma ByCategoryIdempotent(products: seq<MockProduct>, category: string)
    ensures ByCategory(ByCategory(products, category), category) == ByCategory(products, category)
  {
    if category != AllCategories {
      FilterIdempotent(products, q => InCategory(category, q));
    }
  }

  /** "business" is offered as a category but no mock product is in it. */
  lemma BusinessShowsNothing(state: PageState)
    ensures HandleCategoryChange(state, "business").filtered == []
  {
    FilterKeepsNone(MockProducts, q => InCategory("business", q));
  }
}
