/** `ResourceBundleResourcesFactory` of the `rincl-resourcebundle` module: one
    `ResourceBundleResources` per resolving class with a bundle, each later one added as a
    fallback of those before it, and the parent factory's resources as the last fallback. */
module RinclBundleFactory {
  import opened Wrappers
  import opened TypeGraph
  import opened ResourceBundles
  import opened RinclResources
  import opened RinclResourcesFactory
  import BN = BaseNameStrategy
  import RCS = ResolvingClassStrategy

  /** A resolving class strategy, possibly made to resolve one fixed class whatever the
      context class (`forFixedContext(fixedContextClass)`). */
  datatype ResolvingStrategy =
    | Plain(strategy: RCS.Strategy)
    | FixedContext(strategy: RCS.Strategy, fixedContextClass: Class)

  function ResolvingClasses(h: Hierarchy, s: ResolvingStrategy, contextClass: Class): seq<Class>
    requires WellFormed(h)
  {
    match s
    case Plain(strategy) => RCS.Resolve(h, strategy, contextClass)
    case FixedContext(strategy, fixed) => RCS.Resolve(h, strategy, fixed)
  }

  method ResolvingClassesFor(h: Hierarchy, s: ResolvingStrategy, contextClass: Class) returns (classes: seq<Class>)
    requires WellFormed(h)
    ensures classes == ResolvingClasses(h, s, contextClass)
  {
    match s
    case Plain(strategy) =>
      classes := RCS.ResolvingClassesFor(h, strategy, contextClass);
    case FixedContext(strategy, fixed) =>
      classes := RCS.ResolvingClassesFor(h, strategy, fixed);
  }

  /** The four-argument constructor; the resource bundle control is the one behind the
      bundle source. */
  datatype Factory = Factory(parentResourcesFactory: ResourcesFactory, baseNameStrategy: BN.Strategy, resolvingClassStrategy: ResolvingStrategy)

  /** The no-argument constructor: no parent, class base names, `DEFAULT` resolution. */
  function DefaultFactory(): (f: Factory)
    ensures forall c, l :: f.parentResourcesFactory(c, l).None?
    ensures forall c :: BN.BaseNames(f.baseNameStrategy, c) == [c.name]
    ensures f.resolvingClassStrategy == Plain(RCS.Default)
  {
    Factory(NoneFactory(), BN.ClassBaseName, Plain(RCS.Default))
  }

  /** `forFixedContext(parentResourcesFactory, fixedContextClass, resolveAncestors, baseNames)`:
      explicit base names replace the class name when there are any. */
  function ForFixedContext(parent: ResourcesFactory, fixedContextClass: Class, resolveAncestors: bool, baseNames: seq<string>): (f: Factory)
    ensures |baseNames| > 0 ==> forall c :: BN.BaseNames(f.baseNameStrategy, c) == baseNames
    ensures |baseNames| == 0 ==> forall c :: BN.BaseNames(f.baseNameStrategy, c) == [c.name]
    ensures f.resolvingClassStrategy.FixedContext? && f.resolvingClassStrategy.fixedContextClass == fixedContextClass
    ensures f.resolvingClassStrategy.strategy == (if resolveAncestors then RCS.Default else RCS.NoAncestors)
  {
    var baseNameStrategy := if |baseNames| > 0 then BN.ExplicitBaseNames(baseNames) else BN.ClassNameThenBaseNames(baseNames);
    var resolving := if resolveAncestors then RCS.Default else RCS.NoAncestors;
    Factory(parent, baseNameStrategy, FixedContext(resolving, fixedContextClass))
  }

  /** `forFixedContext(fixedContextClass, baseNames)` and the overloads that default the
      parent to `NONE` and ancestor resolution to off. */
  function ForFixedContextDefaults(fixedContextClass: Class, baseNames: seq<string>): (f: Factory)
    ensures forall c, l :: f.parentResourcesFactory(c, l).None?
    ensures f.resolvingClassStrategy == FixedContext(RCS.NoAncestors, fixedContextClass)
    ensures |baseNames| > 0 ==> forall c :: BN.BaseNames(f.baseNameStrategy, c) == baseNames
    ensures |baseNames| == 0 ==> forall c :: BN.BaseNames(f.baseNameStrategy, c) == [c.name]
  {
    ForFixedContext(NoneFactory(), fixedContextClass, false, baseNames)
  }

  /** The resources accumulated after the loop has visited `classes`; they report one of the
      classes as their context class. */
  function Accumulated(h: Hierarchy, f: Factory, source: BundleSource, classes: seq<Class>, locale: Locale): (acc: Option<Resources>)
    ensures acc.Some? ==> ContextClass(acc.value) in classes
  {
    if classes == [] then None
    else
      var before := Accumulated(h, f, source, classes[..|classes| - 1], locale);
      var resolvingClass := classes[|classes| - 1];
      match ResourceBundleFor(h, f.baseNameStrategy, source, resolvingClass, locale)
      case None => before
      case Some(bundle) =>
        var resolvingResources := BundleResources(resolvingClass, None, bundle);
        Some(if before.None? then resolvingResources else WithFallbackResources(before.value, resolvingResources))
  }

  /** What `getOptionalResources` returns: resources exactly when some resolving class has a
      bundle or the parent factory has resources, reporting a resolving class when any has
      a bundle. */
  function Result(h: Hierarchy, f: Factory, source: BundleSource, contextClass: Class, locale: Locale): (res: Option<Resources>)
    requires WellFormed(h)
    ensures var acc := Accumulated(h, f, source, ResolvingClasses(h, f.resolvingClassStrategy, contextClass), locale);
      (res.Some? <==> acc.Some? || f.parentResourcesFactory(contextClass, locale).Some?)
      && (acc.Some? ==> ContextClass(res.value) in ResolvingClasses(h, f.resolvingClassStrategy, contextClass))
  {
    var resources := Accumulated(h, f, source, ResolvingClasses(h, f.resolvingClassStrategy, contextClass), locale);
    var parentResources := f.parentResourcesFactory(contextClass, locale);
    if resources.None? then parentResources else Some(WithOptionalFallback(resources.value, parentResources))
  }

  /** `getOptionalResources(contextClass, locale)` */
  method GetOptionalResources(h: Hierarchy, f: Factory, source: BundleSource, contextClass: Class, locale: Locale)
    returns (result: Option<Resources>)
    requires WellFormed(h)
    ensures result == Result(h, f, source, contextClass, locale)
  {
    var resources: Option<Resources> := None;
    var classes := ResolvingClassesFor(h, f.resolvingClassStrategy, contextClass);
    for i := 0 to |classes|
      invariant resources == Accumulated(h, f, source, classes[..i], locale)
    {
      var resolvingClass := classes[i];
      assert classes[..i + 1][..i] == classes[..i];
      var resourceBundle := GetResourceBundle(h, f.baseNameStrategy, source, resolvingClass, locale);
      if resourceBundle.Some? {
        var resolvingResources := BundleResources(resolvingClass, None, resourceBundle.value);
        resources := Some(if resources.None? then resolvingResources else WithFallbackResources(resources.value, resolvingResources));
      }
    }
    assert classes[..|classes|] == classes;
    var parentResources := f.parentResourcesFactory(contextClass, locale);
    result := if resources.None? then parentResources else Some(WithOptionalFallback(resources.value, parentResources));
  }

  /** The factory as a `ResourcesFactory`, so that it can be the parent of another. */
  function AsResourcesFactory(h: Hierarchy, f: Factory, source: BundleSource): (g: ResourcesFactory)
    requires WellFormed(h)
    ensures forall c, l :: g(c, l).Some? <==>
      Accumulated(h, f, source, ResolvingClasses(h, f.resolvingClassStrategy, c), l).Some? || f.parentResourcesFactory(c, l).Some?
  {
    (contextClass: Class, locale: Locale) => Result(h, f, source, contextClass, locale)
  }

  /** The accumulated resources find a key in the bundle of the earliest resolving class
      that defines it. */
  lemma {:induction false} AccumulatedDefinition(h: Hierarchy, f: Factory, source: BundleSource, classes: seq<Class>, locale: Locale, key: string)
    ensures DefinitionIn(Accumulated(h, f, source, classes, locale), key)
      == FirstDefinition(h, f.baseNameStrategy, source, classes, locale, key)
    decreases |classes|
  {
    if classes != [] {
      var init := classes[..|classes| - 1];
      var last := classes[|classes| - 1];
      AccumulatedDefinition(h, f, source, init, locale, key);
      assert init + [last] == classes;
      FirstDefinitionAppend(h, f.baseNameStrategy, source, init, [last], locale, key);
      assert [last][1..] == [];
      var tail := FirstDefinition(h, f.baseNameStrategy, source, [last], locale, key);
      match ResourceBundleFor(h, f.baseNameStrategy, source, last, locale)
      case None =>
        assert tail == None;
      case Some(bundle) =>
        var resolvingResources := BundleResources(last, None, bundle);
        assert Definition(resolvingResources, key) == tail;
    }
  }

  /** Nothing accumulates exactly when no resolving class has a bundle. */
  lemma {:induction false} AccumulatedNone(h: Hierarchy, f: Factory, source: BundleSource, classes: seq<Class>, locale: Locale)
    ensures Accumulated(h, f, source, classes, locale).None? <==>
      forall i | 0 <= i < |classes| :: ResourceBundleFor(h, f.baseNameStrategy, source, classes[i], locale).None?
    decreases |classes|
  {
    if classes != [] {
      var init := classes[..|classes| - 1];
      AccumulatedNone(h, f, source, init, locale);
      assert forall i | 0 <= i < |init| :: init[i] == classes[i];
    }
  }

  /** When `classes[i]` is the first class with a bundle, the accumulated resources report it
      as their context class. */
  lemma {:induction false} AccumulatedFirst(h: Hierarchy, f: Factory, source: BundleSource, classes: seq<Class>, locale: Locale, i: nat)
    requires i < |classes| && ResourceBundleFor(h, f.baseNameStrategy, source, classes[i], locale).Some?
    requires forall j | 0 <= j < i :: ResourceBundleFor(h, f.baseNameStrategy, source, classes[j], locale).None?
    ensures Accumulated(h, f, source, classes, locale).Some?
    ensures ContextClass(Accumulated(h, f, source, classes, locale).value) == classes[i]
    decreases |classes|
  {
    var init := classes[..|classes| - 1];
    assert forall j | 0 <= j < |init| :: init[j] == classes[j];
    if i == |classes| - 1 {
      AccumulatedNone(h, f, source, init, locale);
    } else {
      AccumulatedFirst(h, f, source, init, locale, i);
    }
  }

  /** Every resources the loop creates has no parent of its own, and the outermost one is of
      the first resolving class with a bundle. */
  lemma AccumulatedContextClass(h: Hierarchy, f: Factory, source: BundleSource, classes: seq<Class>, locale: Locale)
    ensures Accumulated(h, f, source, classes, locale).None? <==>
      forall i | 0 <= i < |classes| :: ResourceBundleFor(h, f.baseNameStrategy, source, classes[i], locale).None?
    ensures forall i | 0 <= i < |classes| && ResourceBundleFor(h, f.baseNameStrategy, source, classes[i], locale).Some?
        && (forall j | 0 <= j < i :: ResourceBundleFor(h, f.baseNameStrategy, source, classes[j], locale).None?) ::
      Accumulated(h, f, source, classes, locale).Some?
      && ContextClass(Accumulated(h, f, source, classes, locale).value) == classes[i]
  {
    AccumulatedNone(h, f, source, classes, locale);
    forall i | 0 <= i < |classes| && ResourceBundleFor(h, f.baseNameStrategy, source, classes[i], locale).Some?
        && (forall j | 0 <= j < i :: ResourceBundleFor(h, f.baseNameStrategy, source, classes[j], locale).None?)
      ensures Accumulated(h, f, source, classes, locale).Some?
        && ContextClass(Accumulated(h, f, source, classes, locale).value) == classes[i]
    {
      AccumulatedFirst(h, f, source, classes, locale, i);
    }
  }

  /** A key resolves to the earliest resolving class's bundle that defines it, and
      otherwise to the parent factory's resources for the same context class and locale. */
  lemma ResultDefinition(h: Hierarchy, f: Factory, source: BundleSource, contextClass: Class, locale: Locale, key: string)
    requires WellFormed(h)
    ensures DefinitionIn(Result(h, f, source, contextClass, locale), key)
      == FirstDefinition(h, f.baseNameStrategy, source, ResolvingClasses(h, f.resolvingClassStrategy, contextClass), locale, key)
         .Or(DefinitionIn(f.parentResourcesFactory(contextClass, locale), key))
  {
    var classes := ResolvingClasses(h, f.resolvingClassStrategy, contextClass);
    AccumulatedDefinition(h, f, source, classes, locale, key);
    var resources := Accumulated(h, f, source, classes, locale);
    if resources.Some? {
      FallbackKeepsResources(resources.value, f.parentResourcesFactory(contextClass, locale), key);
    }
  }

  /** String lookups in the factory's resources: the nearest definition, formatted. */
  lemma ResultString(h: Hierarchy, f: Factory, source: BundleSource, contextClass: Class, locale: Locale,
                     key: string, arguments: seq<string>, format: Formatter)
    requires WellFormed(h)
    ensures var r := GetResources(AsResourcesFactory(h, f, source), contextClass, locale);
      OptionalString(r, key, arguments, format) == StringOf(
        FirstDefinition(h, f.baseNameStrategy, source, ResolvingClasses(h, f.resolvingClassStrategy, contextClass), locale, key)
        .Or(DefinitionIn(f.parentResourcesFactory(contextClass, locale), key)), key, arguments, format)
  {
    var r := GetResources(AsResourcesFactory(h, f, source), contextClass, locale);
    ResultDefinition(h, f, source, contextClass, locale, key);
    OptionalStringFindsDefinition(r, key, arguments, format);
  }

  /** A fixed-context factory with no parent gives the same resources whatever the context
      class. */
  lemma FixedContextIgnoresContextClass(h: Hierarchy, source: BundleSource, fixed: Class, resolveAncestors: bool,
                                        baseNames: seq<string>, c: Class, d: Class, locale: Locale)
    requires WellFormed(h)
    ensures var f := ForFixedContext(NoneFactory(), fixed, resolveAncestors, baseNames);
      Result(h, f, source, c, locale) == Result(h, f, source, d, locale)
  {
  }
}
