/** `LocaleSelection`: a store of one optional locale per `Locale.Category`, each falling back
    to the JVM's default locale for that category, and `LocaleSelectable.setLocale(Locale)`,
    which sets every category in turn. */
module LocaleSelections {
  import opened Wrappers
  import opened ResourceBundles

  /** `Locale.Category`, in declaration order. */
  datatype Category = Display | Format

  /** `Locale.Category.values()` */
  const Categories: seq<Category> := [Display, Format]

  /** `category.ordinal()`: the category's position in `values()`. */
  function Ordinal(category: Category): (n: nat)
    ensures n < |Categories| && Categories[n] == category
  {
    match category
    case Display => 0
    case Format => 1
  }

  /** Distinct categories have distinct slots. */
  lemma OrdinalInjective(c: Category, d: Category)
    ensures Ordinal(c) == Ordinal(d) <==> c == d
  {
  }

  /** The slots of a store just constructed: every category unset. */
  function Unset(): (slots: seq<Option<Locale>>)
    ensures |slots| == |Categories|
  {
    seq(|Categories|, _ => None)
  }

  /** `getLocale(category)` on slot contents: the category's own locale, or else the default
      for that category. */
  function LocaleIn(slots: seq<Option<Locale>>, category: Category, defaults: Category -> Locale): Locale
    requires |slots| == |Categories|
  {
    slots[Ordinal(category)].GetOr(defaults(category))
  }

  /** `setLocale(category, locale)` on slot contents: the category's slot holds the locale and
      every other slot is kept. */
  function Select(slots: seq<Option<Locale>>, category: Category, locale: Locale): (r: seq<Option<Locale>>)
    requires |slots| == |Categories|
    ensures |r| == |Categories|
    ensures r[Ordinal(category)] == Some(locale)
    ensures forall i | 0 <= i < |r| && i != Ordinal(category) :: r[i] == slots[i]
  {
    slots[Ordinal(category) := Some(locale)]
  }

  /** The slots after `setLocale` for each of `categories`, in order. */
  function SelectEach(slots: seq<Option<Locale>>, categories: seq<Category>, locale: Locale): (r: seq<Option<Locale>>)
    requires |slots| == |Categories|
    ensures |r| == |Categories|
  {
    if categories == [] then slots
    else Select(SelectEach(slots, categories[..|categories| - 1], locale), categories[|categories| - 1], locale)
  }

  /** A store just constructed answers the default locale for every category. */
  lemma UnsetGivesDefaults(category: Category, defaults: Category -> Locale)
    ensures LocaleIn(Unset(), category, defaults) == defaults(category)
  {
  }

  /** After `setLocale(c, l)`, `getLocale(c)` is `l` whatever was there before, and every other
      category answers as it did. */
  lemma {:induction false} SelectThenLocale(slots: seq<Option<Locale>>, c: Category, l: Locale, other: Category, defaults: Category -> Locale)
    requires |slots| == |Categories|
    ensures LocaleIn(Select(slots, c, l), c, defaults) == l
    ensures other != c ==> LocaleIn(Select(slots, c, l), other, defaults) == LocaleIn(slots, other, defaults)
  {
    OrdinalInjective(c, other);
  }

  /** Setting the same category twice: the last write wins. */
  lemma {:induction false} LastSelectionWins(slots: seq<Option<Locale>>, c: Category, first: Locale, second: Locale)
    requires |slots| == |Categories|
    ensures Select(Select(slots, c, first), c, second) == Select(slots, c, second)
  {
  }

  /** After setting each of `categories`, exactly those categories answer the locale and the
      others answer as before. */
  lemma {:induction false} SelectEachLocale(slots: seq<Option<Locale>>, categories: seq<Category>, l: Locale, c: Category, defaults: Category -> Locale)
    requires |slots| == |Categories|
    ensures LocaleIn(SelectEach(slots, categories, l), c, defaults) == if c in categories then l else LocaleIn(slots, c, defaults)
    decreases |categories|
  {
    if categories != [] {
      var init := categories[..|categories| - 1];
      var last := categories[|categories| - 1];
      SelectEachLocale(slots, init, l, c, defaults);
      SelectThenLocale(SelectEach(slots, init, l), last, l, c, defaults);
      assert categories == init + [last];
      assert c in categories <==> c in init || c == last;
    }
  }

  /** So `setLocale(locale)` makes every category answer that locale. */
  lemma SelectAllLocale(slots: seq<Option<Locale>>, l: Locale, c: Category, defaults: Category -> Locale)
    requires |slots| == |Categories|
    ensures LocaleIn(SelectEach(slots, Categories, l), c, defaults) == l
  {
    SelectEachLocale(slots, Categories, l, c, defaults);
  }

  /** `LocaleSelection`: the `locales` array holds one slot per category ordinal. */
  class LocaleSelection {
    const locales: array<Option<Locale>>

    predicate Valid() {
      locales.Length == |Categories|
    }

    /** `LocaleSelection()`: every slot empty. */
    constructor ()
      ensures Valid() && fresh(locales)
      ensures locales[..] == Unset()
    {
      locales := new Option<Locale>[|Categories|](_ => None);
    }

    /** `getLocale(category)`, given `Locale.getDefault(category)` as `defaults`. */
    method GetLocale(category: Category, defaults: Category -> Locale) returns (locale: Locale)
      requires Valid()
      ensures locale == LocaleIn(locales[..], category, defaults)
    {
      locale := locales[Ordinal(category)].GetOr(defaults(category));
    }

    /** `setLocale(category, locale)` */
    method SetLocale(category: Category, locale: Locale)
      requires Valid()
      modifies locales
      ensures locales[..] == Select(old(locales[..]), category, locale)
    {
      locales[Ordinal(category)] := Some(locale);
    }

    /** `LocaleSelectable.setLocale(locale)`: `setLocale(category, locale)` for each category
        of `values()`, in order. */
    method SetAllLocales(locale: Locale)
      requires Valid()
      modifies locales
      ensures locales[..] == SelectEach(old(locales[..]), Categories, locale)
    {
      for i := 0 to |Categories|
        invariant locales[..] == SelectEach(old(locales[..]), Categories[..i], locale)
      {
        assert Categories[..i + 1][..i] == Categories[..i];
        SetLocale(Categories[i], locale);
      }
    }
  }
}
