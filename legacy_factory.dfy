/** `ResourceBundleResourcesFactory` of the first-generation tree: the bundles of the
    resolving classes are chained as parents of one another, the first resolving class
    outermost, above the parent factory's resources. */
module LegacyBundleFactory {
  import opened Wrappers
  import opened TypeGraph
  import opened ResourceBundles
  import opened LegacyResources
  import BN = BaseNameStrategy
  import RCS = ResolvingClassStrategy

  datatype Factory = Factory(baseNameStrategy: BN.Strategy, resolvingClassStrategy: RCS.Strategy)

  /** The no-argument constructor: class base names and the `DEFAULT` resolving classes. */
  const DefaultFactory: Factory := Factory(BN.ClassBaseName, RCS.Default)

  /** The resources built over `classes`: each class with a bundle wraps the resources of the
      classes after it, and the last wraps `base`. Anything other than `base` itself is a
      bundle store of one of the classes. */
  function ChainOver(h: Hierarchy, f: Factory, source: BundleSource, classes: seq<Class>, locale: Locale, base: Option<Resources>): (r: Option<Resources>)
    ensures base.Some? ==> r.Some?
    ensures r != base ==> r.Some? && r.value.BundleResources? && r.value.contextClass in classes
  {
    if classes == [] then base
    else
      var rest := ChainOver(h, f, source, classes[1..], locale, base);
      match ResourceBundleFor(h, f.baseNameStrategy, source, classes[0], locale)
      case Some(bundle) => Some(BundleResources(classes[0], rest, bundle))
      case None => rest
  }

  /** `getOptionalResources(contextClass, locale)`, with the parent factory's answer for the
      same class and locale given as `parentResources`. */
  method GetOptionalResources(h: Hierarchy, f: Factory, source: BundleSource, contextClass: Class, locale: Locale, parentResources: Option<Resources>)
    returns (resources: Option<Resources>)
    requires WellFormed(h)
    ensures resources == ChainOver(h, f, source, RCS.Resolve(h, f.resolvingClassStrategy, contextClass), locale, parentResources)
  {
    resources := parentResources;
    var resolvingClassList := RCS.ResolvingClassesFor(h, f.resolvingClassStrategy, contextClass);
    if resolvingClassList != [] {
      var i := |resolvingClassList|;
      while i > 0
        invariant 0 <= i <= |resolvingClassList|
        invariant resources == ChainOver(h, f, source, resolvingClassList[i..], locale, parentResources)
      {
        i := i - 1;
        var resolvingClass := resolvingClassList[i];
        assert resolvingClassList[i..][1..] == resolvingClassList[i + 1..];
        var resourceBundle := GetResourceBundle(h, f.baseNameStrategy, source, resolvingClass, locale);
        if resourceBundle.Some? {
          resources := Some(BundleResources(resolvingClass, resources, resourceBundle.value));
        }
      }
    }
  }

  function DefinitionIn(r: Option<Resources>, key: string): Option<Value> {
    match r
    case Some(resources) => Definition(resources, key)
    case None => None
  }

  /** A key resolves to the bundle of the earliest resolving class that defines it, and only
      when none does to the parent resources. */
  lemma {:induction false} ChainDefinition(h: Hierarchy, f: Factory, source: BundleSource, classes: seq<Class>, locale: Locale, base: Option<Resources>, key: string)
    ensures DefinitionIn(ChainOver(h, f, source, classes, locale, base), key)
      == FirstDefinition(h, f.baseNameStrategy, source, classes, locale, key).Or(DefinitionIn(base, key))
  {
    if classes != [] {
      ChainDefinition(h, f, source, classes[1..], locale, base, key);
    }
  }

  /** Without any bundle for the resolving classes the parent resources are returned as they
      are; otherwise the outermost resources belong to the first class with a bundle. */
  lemma {:induction false} ChainOutermost(h: Hierarchy, f: Factory, source: BundleSource, classes: seq<Class>, locale: Locale, base: Option<Resources>)
    ensures (forall i | 0 <= i < |classes| :: ResourceBundleFor(h, f.baseNameStrategy, source, classes[i], locale).None?) ==>
      ChainOver(h, f, source, classes, locale, base) == base
    ensures forall i | 0 <= i < |classes| && ResourceBundleFor(h, f.baseNameStrategy, source, classes[i], locale).Some?
        && (forall j | 0 <= j < i :: ResourceBundleFor(h, f.baseNameStrategy, source, classes[j], locale).None?) ::
      ChainOver(h, f, source, classes, locale, base).Some?
      && ChainOver(h, f, source, classes, locale, base).value.BundleResources?
      && ChainOver(h, f, source, classes, locale, base).value.contextClass == classes[i]
  {
    if classes != [] {
      ChainOutermost(h, f, source, classes[1..], locale, base);
      assert forall i | 1 <= i < |classes| :: classes[i] == classes[1..][i - 1];
    }
  }

  /** A string looked up in the factory's resources, as `BaseResources` writes the lookup, is
      the nearest definition among the resolving classes' bundles, else the parent's. It is
      formatted with the caller's arguments only when the outermost bundle holds the key;
      a key found further in comes back as stored. */
  lemma FactoryStringLookup(h: Hierarchy, f: Factory, source: BundleSource, contextClass: Class, locale: Locale,
                            parentResources: Option<Resources>, key: string, arguments: seq<string>, format: Formatter)
    requires WellFormed(h)
    ensures var classes := RCS.Resolve(h, f.resolvingClassStrategy, contextClass);
      var r := ChainOver(h, f, source, classes, locale, parentResources);
      r.Some? ==>
        OptionalStringAsWritten(r.value, key, arguments, format)
        == StringOf(FirstDefinition(h, f.baseNameStrategy, source, classes, locale, key).Or(DefinitionIn(parentResources, key)),
                    key, if ArgumentsReach(r.value, key) then arguments else [], format)
  {
    var classes := RCS.Resolve(h, f.resolvingClassStrategy, contextClass);
    var r := ChainOver(h, f, source, classes, locale, parentResources);
    ChainDefinition(h, f, source, classes, locale, parentResources, key);
    if r.Some? {
      AsWrittenFindsDefinition(r.value, key, arguments, format);
    }
  }

  /** With the corrected lookup, the nearest definition is formatted with the caller's
      arguments wherever it lies. */
  lemma FactoryStringLookupCorrected(h: Hierarchy, f: Factory, source: BundleSource, contextClass: Class, locale: Locale,
                                     parentResources: Option<Resources>, key: string, arguments: seq<string>, format: Formatter)
    requires WellFormed(h)
    ensures var classes := RCS.Resolve(h, f.resolvingClassStrategy, contextClass);
      var r := ChainOver(h, f, source, classes, locale, parentResources);
      r.Some? ==>
        OptionalString(r.value, key, arguments, format)
        == StringOf(FirstDefinition(h, f.baseNameStrategy, source, classes, locale, key).Or(DefinitionIn(parentResources, key)), key, arguments, format)
  {
    var classes := RCS.Resolve(h, f.resolvingClassStrategy, contextClass);
    var r := ChainOver(h, f, source, classes, locale, parentResources);
    ChainDefinition(h, f, source, classes, locale, parentResources, key);
    if r.Some? {
      OptionalStringFindsDefinition(r.value, key, arguments, format);
    }
  }
}
