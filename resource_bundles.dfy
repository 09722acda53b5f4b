/** Resource bundles as the factories see them: `ResourceBundle.getBundle` is an oracle of
    the bundles that exist for a base name and locale, and a missing pair stands for
    `MissingResourceException`. */
module ResourceBundles {
  import opened Wrappers
  import opened TypeGraph
  import opened BaseNameStrategy

  /** A value stored in a bundle: a `String`, or an object of some other type. */
  datatype Value = Str(s: string) | Other(tag: string)

  type Bundle = map<string, Value>

  /** A locale written as `ResourceBundle.Control.toBundleName` would append it: "" is the
      root locale, otherwise e.g. "en" or "en_US". */
  type Locale = string

  /** What `ResourceBundle.getBundle(baseName, locale, classLoader, control)` returns once the
      control has done its work. */
  datatype BundleSource = BundleSource(bundles: map<(string, Locale), Bundle>)

  /** The bundle of the first base name that loads. */
  function FirstBundle(source: BundleSource, baseNames: seq<string>, locale: Locale): (r: Option<Bundle>)
    ensures r.None? <==> forall i | 0 <= i < |baseNames| :: (baseNames[i], locale) !in source.bundles
  {
    if baseNames == [] then None
    else if (baseNames[0], locale) in source.bundles then Some(source.bundles[(baseNames[0], locale)])
    else
      var r := FirstBundle(source, baseNames[1..], locale);
      assert forall i | 1 <= i < |baseNames| :: baseNames[i] == baseNames[1..][i - 1];
      r
  }

  /** The bundle `FirstBundle` returns comes from the earliest base name that has one. */
  lemma {:induction false} FirstBundleIsEarliest(source: BundleSource, baseNames: seq<string>, locale: Locale)
    requires FirstBundle(source, baseNames, locale).Some?
    ensures exists i | 0 <= i < |baseNames| ::
      (baseNames[i], locale) in source.bundles
      && FirstBundle(source, baseNames, locale) == Some(source.bundles[(baseNames[i], locale)])
      && forall j | 0 <= j < i :: (baseNames[j], locale) !in source.bundles
  {
    if (baseNames[0], locale) !in source.bundles {
      FirstBundleIsEarliest(source, baseNames[1..], locale);
      var i :| 0 <= i < |baseNames[1..]|
        && (baseNames[1..][i], locale) in source.bundles
        && FirstBundle(source, baseNames[1..], locale) == Some(source.bundles[(baseNames[1..][i], locale)])
        && forall j | 0 <= j < i :: (baseNames[1..][j], locale) !in source.bundles;
      assert forall j | 1 <= j < i + 1 :: baseNames[j] == baseNames[1..][j - 1];
      assert (baseNames[i + 1], locale) in source.bundles;
    } else {
      assert (baseNames[0], locale) in source.bundles;
    }
  }

  /** `getResourceBundle(referenceClass, locale)`: nothing for a class without a class loader,
      otherwise the bundle of the first base name the strategy gives that loads. */
  function ResourceBundleFor(h: Hierarchy, strategy: Strategy, source: BundleSource, referenceClass: Class, locale: Locale): (r: Option<Bundle>)
    ensures r.Some? <==> (
      HasClassLoader(h, referenceClass)
      && exists i | 0 <= i < |BaseNames(strategy, referenceClass)| :: (BaseNames(strategy, referenceClass)[i], locale) in source.bundles)
  {
    if HasClassLoader(h, referenceClass) then FirstBundle(source, BaseNames(strategy, referenceClass), locale) else None
  }

  /** The loop of `getResourceBundle`, returning as soon as a base name loads. */
  method GetResourceBundle(h: Hierarchy, strategy: Strategy, source: BundleSource, referenceClass: Class, locale: Locale)
    returns (bundle: Option<Bundle>)
    ensures bundle == ResourceBundleFor(h, strategy, source, referenceClass, locale)
  {
    if HasClassLoader(h, referenceClass) {
      var baseNames := BaseNames(strategy, referenceClass);
      for i := 0 to |baseNames|
        invariant FirstBundle(source, baseNames[i..], locale) == FirstBundle(source, baseNames, locale)
      {
        assert baseNames[i..][1..] == baseNames[i + 1..];
        if (baseNames[i], locale) in source.bundles {
          return Some(source.bundles[(baseNames[i], locale)]);
        }
      }
    }
    return None;
  }

  /** The value for `key` in the bundle of the earliest class in `classes` whose bundle defines
      it: the lookup a chain of bundle resources in that order performs. */
  function FirstDefinition(h: Hierarchy, strategy: Strategy, source: BundleSource, classes: seq<Class>, locale: Locale, key: string): Option<Value>
  {
    if classes == [] then None
    else
      match ResourceBundleFor(h, strategy, source, classes[0], locale)
      case Some(b) => if key in b then Some(b[key]) else FirstDefinition(h, strategy, source, classes[1..], locale, key)
      case None => FirstDefinition(h, strategy, source, classes[1..], locale, key)
  }

  predicate Defines(h: Hierarchy, strategy: Strategy, source: BundleSource, c: Class, locale: Locale, key: string) {
    var b := ResourceBundleFor(h, strategy, source, c, locale);
    b.Some? && key in b.value
  }

  /** Looking through `a + b` finds `a`'s definition first, and `b`'s only when `a` has none. */
  lemma {:induction false} FirstDefinitionAppend(h: Hierarchy, strategy: Strategy, source: BundleSource, a: seq<Class>, b: seq<Class>, locale: Locale, key: string)
    ensures FirstDefinition(h, strategy, source, a + b, locale, key)
      == FirstDefinition(h, strategy, source, a, locale, key).Or(FirstDefinition(h, strategy, source, b, locale, key))
    decreases |a|
  {
    if a != [] {
      assert (a + b)[1..] == a[1..] + b;
      FirstDefinitionAppend(h, strategy, source, a[1..], b, locale, key);
    } else {
      assert a + b == b;
    }
  }

  /** Nothing is found exactly when no class in the sequence defines the key. */
  lemma {:induction false} FirstDefinitionNone(h: Hierarchy, strategy: Strategy, source: BundleSource, classes: seq<Class>, locale: Locale, key: string)
    ensures FirstDefinition(h, strategy, source, classes, locale, key).None? <==>
      forall i | 0 <= i < |classes| :: !Defines(h, strategy, source, classes[i], locale, key)
  {
    if classes != [] {
      var rest := classes[1..];
      FirstDefinitionNone(h, strategy, source, rest, locale, key);
      assert forall i | 1 <= i < |classes| :: classes[i] == rest[i - 1];
    }
  }

  /** When `classes[i]` is the earliest class defining the key, its definition is found. */
  lemma {:induction false} FirstDefinitionAt(h: Hierarchy, strategy: Strategy, source: BundleSource, classes: seq<Class>, locale: Locale, key: string, i: nat)
    requires i < |classes| && Defines(h, strategy, source, classes[i], locale, key)
    requires forall j | 0 <= j < i :: !Defines(h, strategy, source, classes[j], locale, key)
    ensures FirstDefinition(h, strategy, source, classes, locale, key)
      == Some(ResourceBundleFor(h, strategy, source, classes[i], locale).value[key])
  {
    if i > 0 {
      var rest := classes[1..];
      assert !Defines(h, strategy, source, classes[0], locale, key);
      assert rest[i - 1] == classes[i];
      assert forall j | 0 <= j < i - 1 :: rest[j] == classes[j + 1];
      FirstDefinitionAt(h, strategy, source, rest, locale, key, i - 1);
    }
  }

  /** A definition is found exactly when some class in the sequence defines the key, and it is
      the definition of the earliest such class. */
  lemma FirstDefinitionIsEarliest(h: Hierarchy, strategy: Strategy, source: BundleSource, classes: seq<Class>, locale: Locale, key: string)
    ensures FirstDefinition(h, strategy, source, classes, locale, key).None? <==>
      forall i | 0 <= i < |classes| :: !Defines(h, strategy, source, classes[i], locale, key)
    ensures forall i | 0 <= i < |classes| && Defines(h, strategy, source, classes[i], locale, key)
        && (forall j | 0 <= j < i :: !Defines(h, strategy, source, classes[j], locale, key)) ::
      FirstDefinition(h, strategy, source, classes, locale, key)
        == Some(ResourceBundleFor(h, strategy, source, classes[i], locale).value[key])
  {
    FirstDefinitionNone(h, strategy, source, classes, locale, key);
    forall i | 0 <= i < |classes| && Defines(h, strategy, source, classes[i], locale, key)
        && (forall j | 0 <= j < i :: !Defines(h, strategy, source, classes[j], locale, key))
      ensures FirstDefinition(h, strategy, source, classes, locale, key)
        == Some(ResourceBundleFor(h, strategy, source, classes[i], locale).value[key])
    {
      FirstDefinitionAt(h, strategy, source, classes, locale, key, i);
    }
  }
}
