/** src/contexts/LanguageContext.tsx: the Arabic and English string tables,
    group by group, and what each group is known to satisfy. */
module Translations {

  // LanguageContext.tsx groups each table's entries under comments: navigation,
  // home page, trust indicators, categories, product details, actions,
  // dashboard, status.

  const ArNavigation: map<string, string> :=
    map[
      "home" := "الرئيسية",
      "courses" := "الدورات",
      "products" := "المنتجات",
      "sellers" := "البائعون",
      "login" := "تسجيل الدخول",
      "register" := "التسجيل",
      "dashboard" := "لوحة التحكم"
    ]

  const ArHomePage: map<string, string> :=
    map[
      "hero_title" := "اكتشف الدورات والمنتجات الموثوقة",
      "hero_subtitle" := "منصة تقييم شفافة تساعدك على اتخاذ قرارات شراء ذكية",
      "search_placeholder" := "ابحث عن دورات أو منتجات...",
      "search" := "بحث"
    ]

  const ArTrust: map<string, string> :=
    map[
      "trust_score" := "نقاط الثقة",
      "trusted" := "موثوق",
      "not_trusted" := "غير موثوق",
      "reviews" := "تقييم",
      "votes" := "صوت",
      "helpful" := "مفيد"
    ]

  const ArCategories: map<string, string> :=
    map[
      "all" := "الكل",
      "programming" := "البرمجة",
      "design" := "التصميم",
      "business" := "الأعمال",
      "marketing" := "التسويق",
      "language" := "اللغات",
      "electronics" := "الإلكترونيات",
      "books" := "الكتب"
    ]

  const ArDetails: map<string, string> :=
    map[
      "price" := "السعر",
      "free" := "مجاني",
      "description" := "الوصف",
      "seller" := "البائع",
      "created_by" := "من إنشاء",
      "add_review" := "إضافة تقييم",
      "write_review" := "اكتب تقييمك",
      "view" := "عرض"
    ]

  const ArActions: map<string, string> :=
    map[
      "vote_up" := "تصويت إيجابي",
      "vote_down" := "تصويت سلبي",
      "share" := "مشاركة",
      "report" := "إبلاغ",
      "save" := "حفظ",
      "cancel" := "إلغاء"
    ]

  const ArDashboard: map<string, string> :=
    map[
      "my_products" := "منتجاتي",
      "my_reviews" := "تقييماتي",
      "analytics" := "الإحصائيات",
      "settings" := "الإعدادات"
    ]

  const ArStatus: map<string, string> :=
    map[
      "trending" := "رائج",
      "top_rated" := "الأعلى تقييماً",
      "new" := "جديد",
      "featured" := "مميز"
    ]

  const EnNavigation: map<string, string> :=
    map[
      "home" := "Home",
      "courses" := "Courses",
      "products" := "Products",
      "sellers" := "Sellers",
      "login" := "Login",
      "register" := "Register",
      "dashboard" := "Dashboard"
    ]

  const EnHomePage: map<string, string> :=
    map[
      "hero_title" := "Discover Trusted Courses & Products",
      "hero_subtitle" := "A transparent review platform to help you make smart purchase decisions",
      "search_placeholder" := "Search for courses or products...",
      "search" := "Search"
    ]

  const EnTrust: map<string, string> :=
    map[
      "trust_score" := "Trust Score",
      "trusted" := "Trusted",
      "not_trusted" := "Not Trusted",
      "reviews" := "Reviews",
      "votes" := "Votes",
      "helpful" := "Helpful"
    ]

  const EnCategories: map<string, string> :=
    map[
      "all" := "All",
      "programming" := "Programming",
      "design" := "Design",
      "business" := "Business",
      "marketing" := "Marketing",
      "language" := "Languages",
      "electronics" := "Electronics",
      "books" := "Books"
    ]

  const EnDetails: map<string, string> :=
    map[
      "price" := "Price",
      "free" := "Free",
      "description" := "Description",
      "seller" := "Seller",
      "created_by" := "Created by",
      "add_review" := "Add Review",
      "write_review" := "Write your review",
      "view" := "View"
    ]

  const EnActions: map<string, string> :=
    map[
      "vote_up" := "Vote Up",
      "vote_down" := "Vote Down",
      "share" := "Share",
      "report" := "Report",
      "save" := "Save",
      "cancel" := "Cancel"
    ]

  const EnDashboard: map<string, string> :=
    map[
      "my_products" := "My Products",
      "my_reviews" := "My Reviews",
      "analytics" := "Analytics",
      "settings" := "Settings"
    ]

  const EnStatus: map<string, string> :=
    map[
      "trending" := "Trending",
      "top_rated" := "Top Rated",
      "new" := "New",
      "featured" := "Featured"
    ]

  /** The Arabic table. */
  const ArTable: map<string, string> :=
    ArNavigation + ArHomePage + ArTrust + ArCategories + ArDetails + ArActions + ArDashboard + ArStatus

  /** The English table. */
  const EnTable: map<string, string> :=
    EnNavigation + EnHomePage + EnTrust + EnCategories + EnDetails + EnActions + EnDashboard + EnStatus

  /** Every value of `m` is a non-empty string. */
  ghost predicate NonEmptyValues(m: map<string, string>) {
    forall k :: k in m ==> m[k] != ""
  }

  lemma UnionKeepsNonEmpty(a: map<string, string>, b: map<string, string>)
    requires NonEmptyValues(a) && NonEmptyValues(b)
    ensures NonEmptyValues(a + b)
  {
  }

  lemma UnionKeepsSameKeys(a: map<string, string>, b: map<string, string>,
                           c: map<string, string>, d: map<string, string>)
    requires a.Keys == b.Keys && c.Keys == d.Keys
    ensures (a + c).Keys == (b + d).Keys
  {
  }

  /** Each group of LanguageContext.tsx defines the same keys in both languages, with
      non-empty values; none defines "toString". */
  lemma NavigationGroupFacts()
    ensures ArNavigation.Keys == EnNavigation.Keys
    ensures NonEmptyValues(ArNavigation)
    ensures NonEmptyValues(EnNavigation)
    ensures "toString" !in ArNavigation
  {
  }

  lemma HomePageGroupFacts()
    ensures ArHomePage.Keys == EnHomePage.Keys
    ensures NonEmptyValues(ArHomePage)
    ensures NonEmptyValues(EnHomePage)
    ensures "toString" !in ArHomePage
  {
  }

  lemma TrustGroupFacts()
    ensures ArTrust.Keys == EnTrust.Keys
    ensures NonEmptyValues(ArTrust)
    ensures NonEmptyValues(EnTrust)
    ensures "toString" !in ArTrust
  {
  }

  lemma CategoriesGroupFacts()
    ensures ArCategories.Keys == EnCategories.Keys
    ensures NonEmptyValues(ArCategories)
    ensures NonEmptyValues(EnCategories)
    ensures "toString" !in ArCategories
  {
  }

  lemma DetailsGroupFacts()
    ensures ArDetails.Keys == EnDetails.Keys
    ensures NonEmptyValues(ArDetails)
    ensures NonEmptyValues(EnDetails)
    ensures "toString" !in ArDetails
  {
  }

  lemma ActionsGroupFacts()
    ensures ArActions.Keys == EnActions.Keys
    ensures NonEmptyValues(ArActions)
    ensures NonEmptyValues(EnActions)
    ensures "toString" !in ArActions
  {
  }

  lemma DashboardGroupFacts()
    ensures ArDashboard.Keys == EnDashboard.Keys
    ensures NonEmptyValues(ArDashboard)
    ensures NonEmptyValues(EnDashboard)
    ensures "toString" !in ArDashboard
  {
  }

  lemma StatusGroupFacts()
    ensures ArStatus.Keys == EnStatus.Keys
    ensures NonEmptyValues(ArStatus)
    ensures NonEmptyValues(EnStatus)
    ensures "toString" !in ArStatus
  {
  }

}
