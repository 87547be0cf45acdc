/** src/contexts/LanguageContext.tsx: the Arabic and English string tables,
    the current language with its toggle, the `t` lookup with key fallback,
    and the document direction that follows the language. */
module LanguageContext {
  import opened Translations

  datatype Language = Ar | En

  /** The language the provider starts in. */
  const InitialLanguage: Language := Ar

  function Table(l: Language): map<string, string> {
    match l
    case Ar => ArTable
    case En => EnTable
  }

  /** The names every plain JavaScript object inherits from `Object.prototype`. */
  const ObjectPrototypeNames: set<string> :=
    {"constructor", "hasOwnProperty", "isPrototypeOf", "propertyIsEnumerable",
     "toLocaleString", "toString", "valueOf", "__proto__",
     "__defineGetter__", "__defineSetter__", "__lookupGetter__", "__lookupSetter__"}

  /** Both tables define the same keys. */
  lemma TablesShareKeys()
    ensures ArTable.Keys == EnTable.Keys
  {
    NavigationGroupFacts();
    HomePageGroupFacts();
    TrustGroupFacts();
    CategoriesGroupFacts();
    DetailsGroupFacts();
    ActionsGroupFacts();
    DashboardGroupFacts();
    StatusGroupFacts();
    var a, e := ArNavigation, EnNavigation;
    UnionKeepsSameKeys(a, e, ArHomePage, EnHomePage);
    a, e := a + ArHomePage, e + EnHomePage;
    UnionKeepsSameKeys(a, e, ArTrust, EnTrust);
    a, e := a + ArTrust, e + EnTrust;
    UnionKeepsSameKeys(a, e, ArCategories, EnCategories);
    a, e := a + ArCategories, e + EnCategories;
    UnionKeepsSameKeys(a, e, ArDetails, EnDetails);
    a, e := a + ArDetails, e + EnDetails;
    UnionKeepsSameKeys(a, e, ArActions, EnActions);
    a, e := a + ArActions, e + EnActions;
    UnionKeepsSameKeys(a, e, ArDashboard, EnDashboard);
    a, e := a + ArDashboard, e + EnDashboard;
    UnionKeepsSameKeys(a, e, ArStatus, EnStatus);
  }

  lemma ArTableFacts()
    ensures NonEmptyValues(ArTable)
  {
    NavigationGroupFacts();
    HomePageGroupFacts();
    TrustGroupFacts();
    CategoriesGroupFacts();
    DetailsGroupFacts();
    ActionsGroupFacts();
    DashboardGroupFacts();
    StatusGroupFacts();
    UnionKeepsNonEmpty(ArNavigation, ArHomePage);
    UnionKeepsNonEmpty(ArNavigation + ArHomePage, ArTrust);
    UnionKeepsNonEmpty(ArNavigation + ArHomePage + ArTrust, ArCategories);
    UnionKeepsNonEmpty(ArNavigation + ArHomePage + ArTrust + ArCategories, ArDetails);
    UnionKeepsNonEmpty(ArNavigation + ArHomePage + ArTrust + ArCategories + ArDetails, ArActions);
    UnionKeepsNonEmpty(ArNavigation + ArHomePage + ArTrust + ArCategories + ArDetails + ArActions, ArDashboard);
    UnionKeepsNonEmpty(ArNavigation + ArHomePage + ArTrust + ArCategories + ArDetails + ArActions + ArDashboard, ArStatus);
  }

  lemma EnTableFacts()
    ensures NonEmptyValues(EnTable)
  {
    NavigationGroupFacts();
    HomePageGroupFacts();
    TrustGroupFacts();
    CategoriesGroupFacts();
    DetailsGroupFacts();
    ActionsGroupFacts();
    DashboardGroupFacts();
    StatusGroupFacts();
    UnionKeepsNonEmpty(EnNavigation, EnHomePage);
    UnionKeepsNonEmpty(EnNavigation + EnHomePage, EnTrust);
    UnionKeepsNonEmpty(EnNavigation + EnHomePage + EnTrust, EnCategories);
    UnionKeepsNonEmpty(EnNavigation + EnHomePage + EnTrust + EnCategories, EnDetails);
    UnionKeepsNonEmpty(EnNavigation + EnHomePage + EnTrust + EnCategories + EnDetails, EnActions);
    UnionKeepsNonEmpty(EnNavigation + EnHomePage + EnTrust + EnCategories + EnDetails + EnActions, EnDashboard);
    UnionKeepsNonEmpty(EnNavigation + EnHomePage + EnTrust + EnCategories + EnDetails + EnActions + EnDashboard, EnStatus);
  }

  /** No table maps a key to the empty string, so `|| key` fires only for
      missing keys. */
  lemma TableFacts(l: Language)
    ensures NonEmptyValues(Table(l))
  {
    if l == Ar { ArTableFacts(); } else { EnTableFacts(); }
  }

  /** `toggleLanguage`: the other language. */
  function Toggle(l: Language): (r: Language)
    ensures r != l
  {
    if l == Ar then En else Ar
  }

  /** Toggling twice restores the language. */
  lemma ToggleTwice(l: Language)
    ensures Toggle(Toggle(l)) == l
  {
  }

  datatype Direction = Rtl | Ltr

  /** The `dir` attribute the provider sets on the document. */
  function DirectionOf(l: Language): (d: Direction)
    ensures d == Rtl <==> l == Ar
  {
    if l == Ar then Rtl else Ltr
  }

  /** The provider starts in Arabic, so the document starts right to left. */
  lemma StartsRightToLeft()
    ensures DirectionOf(InitialLanguage) == Rtl
  {
  }

  /** Toggling the language always flips the document direction. */
  lemma ToggleFlipsDirection(l: Language)
    ensures DirectionOf(Toggle(l)) != DirectionOf(l)
  {
  }

  /** The table's entry for `key` when it is truthy, else `key` itself. */
  function LookupOrKey(table: map<string, string>, key: string): (r: string)
    requires NonEmptyValues(table)
    ensures key in table ==> r == table[key]
    ensures key !in table ==> r == key
  {
    if key in table && table[key] != "" then table[key] else key
  }

  /** `t(key)`: the current table's entry for `key`, or `key` itself when the
      table has none. */
  function Translate(l: Language, key: string): (r: string)
    ensures key in Table(l) ==> r == Table(l)[key]
    ensures key !in Table(l) ==> r == key
  {
    TableFacts(l);
    LookupOrKey(Table(l), key)
  }

  lemma SameKeysSameMembers(a: map<string, string>, b: map<string, string>, key: string)
    requires a.Keys == b.Keys
    ensures key in a <==> key in b
  {
  }

  /** A key is translated in one language exactly when it is translated in the
      other, so an untranslated key shows as itself in both. */
  lemma TranslatedInBothOrNeither(key: string)
    ensures key in Table(Ar) <==> key in Table(En)
  {
    TablesShareKeys();
    SameKeysSameMembers(Table(Ar), Table(En), key);
  }

  /** What a JavaScript property read on a table object yields: an own string,
      an inherited prototype member (a function or an object), or `undefined`. */
  datatype JsValue = Text(text: string) | Inherited(name: string) | Undefined

  function PropertyOf(table: map<string, string>, key: string): (v: JsValue)
    ensures v.Text? <==> key in table
    ensures v.Text? ==> v.text == table[key]
    ensures v.Inherited? <==> key !in table && key in ObjectPrototypeNames
    ensures v.Inherited? ==> v.name == key
  {
    if key in table then Text(table[key])
    else if key in ObjectPrototypeNames then Inherited(key)
    else Undefined
  }

  predicate Truthy(v: JsValue) {
    match v
    case Text(s) => s != ""
    case Inherited(_) => true
    case Undefined => false
  }

  /** `table[key] || key` as written: the property read also finds members
      inherited from `Object.prototype`. */
  function LookupOrKeyAsWritten(table: map<string, string>, key: string): (r: JsValue)
    requires NonEmptyValues(table)
    ensures key in table ==> r == Text(table[key])
    ensures key !in table && key !in ObjectPrototypeNames ==> r == Text(key)
    ensures key !in table && key in ObjectPrototypeNames ==> r == Inherited(key)
  {
    var v := PropertyOf(table, key);
    if Truthy(v) then v else Text(key)
  }

  /** `t(key)` as written. */
  function TranslateAsWritten(l: Language, key: string): (r: JsValue)
    ensures key in Table(l) ==> r == Text(Table(l)[key])
    ensures key !in Table(l) && key !in ObjectPrototypeNames ==> r == Text(key)
    ensures key !in Table(l) && key in ObjectPrototypeNames ==> r == Inherited(key)
  {
    TableFacts(l);
    LookupOrKeyAsWritten(Table(l), key)
  }

  /** The key "toString" is not in the Arabic table (the initial language),
      yet the lookup as written answers with the inherited
      `Object.prototype.toString` function instead of falling back to the key. */
  lemma InheritedNameEscapesFallback()
    ensures "toString" !in Table(Ar)
    ensures TranslateAsWritten(Ar, "toString") == Inherited("toString")
    ensures Translate(Ar, "toString") == "toString"
  {
    NavigationGroupFacts();
    HomePageGroupFacts();
    TrustGroupFacts();
    CategoriesGroupFacts();
    DetailsGroupFacts();
    ActionsGroupFacts();
    DashboardGroupFacts();
    StatusGroupFacts();
  }

  /** Apart from the inherited names, the lookup as written is the intended
      own-key lookup with key fallback. */
  lemma AsWrittenAgreesOffPrototype(l: Language, key: string)
    requires key !in ObjectPrototypeNames
    ensures TranslateAsWritten(l, key) == Text(Translate(l, key))
  {
  }
}
