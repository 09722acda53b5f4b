/** `ResourcesFactory` of the `rincl` module: a strategy that may supply resources for a
    context class and locale. */
module RinclResourcesFactory {
  import opened Wrappers
  import opened TypeGraph
  import opened ResourceBundles
  import opened RinclResources

  /** `getOptionalResources(contextClass, locale)` of some factory. */
  type ResourcesFactory = (Class, Locale) -> Option<Resources>

  /** `NONE`: never any resources. */
  function NoneFactory(): (f: ResourcesFactory)
    ensures forall c, l :: f(c, l).None?
  {
    (contextClass: Class, locale: Locale) => None
  }

  /** An object with the runtime class `getClass()` returns. */
  datatype Context = Context(runtimeClass: Class)

  /** `getResources(contextClass, locale)`: the factory's resources, or `EmptyResources` for
      the class when it has none. */
  function GetResources(f: ResourcesFactory, contextClass: Class, locale: Locale): (r: Resources)
    ensures f(contextClass, locale).Some? ==> r == f(contextClass, locale).value
    ensures f(contextClass, locale).None? ==> r == EmptyResources(contextClass) && ContextClass(r) == contextClass
  {
    f(contextClass, locale).GetOr(EmptyResources(contextClass))
  }

  /** `getOptionalResources(context, locale)`: the resources for the object's class, so that
      requiring them gives what requiring that class's resources gives. */
  function GetOptionalResourcesOf(f: ResourcesFactory, context: Context, locale: Locale): (r: Option<Resources>)
    ensures r.Some? ==> GetResources(f, context.runtimeClass, locale) == r.value
    ensures r.None? ==> GetResources(f, context.runtimeClass, locale) == EmptyResources(context.runtimeClass)
  {
    f(context.runtimeClass, locale)
  }

  /** `getResources(context, locale)`: the resources for the object's class, or
      `EmptyResources` for that class. */
  function GetResourcesOf(f: ResourcesFactory, context: Context, locale: Locale): (r: Resources)
    ensures GetOptionalResourcesOf(f, context, locale).None? ==> r == EmptyResources(context.runtimeClass)
  {
    GetOptionalResourcesOf(f, context, locale).GetOr(EmptyResources(context.runtimeClass))
  }

  /** Asking for an object is asking for its class. */
  lemma ObjectIsItsClass(f: ResourcesFactory, context: Context, locale: Locale)
    ensures GetResourcesOf(f, context, locale) == GetResources(f, context.runtimeClass, locale)
  {
  }

  /** Resources required from `NONE` are empty resources of the class, in which no key is
      found. */
  lemma NoneGivesEmpty(contextClass: Class, locale: Locale, key: string, arguments: seq<string>, format: Formatter)
    ensures GetResources(NoneFactory(), contextClass, locale) == EmptyResources(contextClass)
    ensures OptionalString(GetResources(NoneFactory(), contextClass, locale), key, arguments, format) == Ok(None)
    ensures !HasResource(GetResources(NoneFactory(), contextClass, locale), key)
  {
  }
}
