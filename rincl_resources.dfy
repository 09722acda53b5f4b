/** The resources of the `rincl` and `rincl-resourcebundle` modules: `EmptyResources`,
    string-backed `ResourceBundleResources` (over `AbstractStringResources`) and the
    `ChildResourcesDecorator` that `withFallbackResources` puts around two resources. */
module RinclResources {
  import opened Wrappers
  import opened TypeGraph
  import opened ResourceBundles
  import opened JavaLang

  datatype Error =
    | NotAString(key: string)          // "Resource with key ... is not a string."
    | Unconvertible(text: string)      // a stored string the typed getter cannot convert
    | MissingKey(key: string)          // requireConfiguration of an absent value

  datatype Resources =
    | EmptyResources(emptyContextClass: Class)
    | BundleResources(bundleContextClass: Class, parent: Option<Resources>, bundle: Bundle)
    | ChildDecorator(resources: Resources, parentResources: Resources)

  /** `MessageFormat` with the `FORMAT` locale fixed by the caller. */
  type Formatter = (string, seq<string>) -> string

  function Formatted(pattern: string, arguments: seq<string>, format: Formatter): string {
    if |arguments| > 0 then format(pattern, arguments) else pattern
  }

  /** `getContextClass()`: a store reports the class it was built for, and a decorator the
      class of the resources it wraps. */
  function ContextClass(r: Resources): (c: Class)
    ensures r.EmptyResources? ==> c == r.emptyContextClass
    ensures r.BundleResources? ==> c == r.bundleContextClass
    ensures r.ChildDecorator? ==> c == ContextClass(r.resources)
  {
    match r
    case EmptyResources(c) => c
    case BundleResources(c, _, _) => c
    case ChildDecorator(wrapped, _) => ContextClass(wrapped)
  }

  /** `findConfigurationValueImpl(key)`: the bundle's string; a stored non-string is a
      configuration error. The second generation repeats the first generation's
      `getOptionalStringImpl` here, and `Formatted`, `StringOf` and `ConvertedOf` below repeat
      that module's helpers, so that each generation is modelled over its own `Resources` and
      `Error` types. */
  function FindConfigurationValueImpl(bundle: Bundle, key: string): (r: Result<Option<string>, Error>)
    ensures r == Ok(None) <==> key !in bundle
    ensures r.Err? <==> key in bundle && bundle[key].Other?
    ensures r.Err? ==> r.error == NotAString(key)
    ensures r.Ok? && r.value.Some? ==> key in bundle && bundle[key] == Str(r.value.value)
  {
    if key !in bundle then Ok(None)
    else
      match bundle[key]
      case Str(s) => Ok(Some(s))
      case Other(_) => Err(NotAString(key))
  }

  /** `findObject(key)`: the bundle's object of whatever type, with no error. */
  function FindObject(bundle: Bundle, key: string): (r: Option<Value>)
    ensures r.Some? <==> key in bundle
    ensures r.Some? ==> r.value == bundle[key]
  {
    if key in bundle then Some(bundle[key]) else None
  }

  /** The value `key` resolves to: a bundle before its parent, a decorated resources before
      its fallback; `EmptyResources` defines nothing. */
  function Definition(r: Resources, key: string): Option<Value> {
    match r
    case EmptyResources(_) => None
    case BundleResources(_, parent, bundle) =>
      if key in bundle then Some(bundle[key])
      else (match parent case Some(p) => Definition(p, key) case None => None)
    case ChildDecorator(wrapped, fallback) => Definition(wrapped, key).Or(Definition(fallback, key))
  }

  function DefinitionIn(r: Option<Resources>, key: string): Option<Value> {
    match r
    case Some(resources) => Definition(resources, key)
    case None => None
  }

  function StringOf(d: Option<Value>, key: string, arguments: seq<string>, format: Formatter): Result<Option<string>, Error> {
    match d
    case None => Ok(None)
    case Some(Str(s)) => Ok(Some(Formatted(s, arguments, format)))
    case Some(Other(_)) => Err(NotAString(key))
  }

  /** `getOptionalString(key, arguments)`: the local string, formatted when there are
      arguments, else the parent's lookup with the same arguments; a decorator asks the
      wrapped resources first and its fallback only when they have nothing. */
  function OptionalString(r: Resources, key: string, arguments: seq<string>, format: Formatter): (s: Result<Option<string>, Error>)
    ensures s == Ok(None) <==> Definition(r, key).None?
    ensures s.Err? <==> Definition(r, key).Some? && Definition(r, key).value.Other?
    ensures s.Err? ==> s.error == NotAString(key)
  {
    match r
    case EmptyResources(_) => Ok(None)
    case BundleResources(_, parent, bundle) =>
      var local :- FindConfigurationValueImpl(bundle, key);
      if local.Some? then Ok(Some(Formatted(local.value, arguments, format)))
      else (match parent case Some(p) => OptionalString(p, key, arguments, format) case None => Ok(None))
    case ChildDecorator(wrapped, fallback) =>
      var first :- OptionalString(wrapped, key, arguments, format);
      if first.Some? then Ok(first) else OptionalString(fallback, key, arguments, format)
  }

  /** A string lookup finds the nearest definition, however bundles, parents and fallbacks
      are nested, and fails when that definition is not a string. */
  lemma {:induction false} OptionalStringFindsDefinition(r: Resources, key: string, arguments: seq<string>, format: Formatter)
    ensures OptionalString(r, key, arguments, format) == StringOf(Definition(r, key), key, arguments, format)
  {
    match r
    case EmptyResources(_) =>
    case BundleResources(_, parent, bundle) =>
      if key !in bundle && parent.Some? { OptionalStringFindsDefinition(parent.value, key, arguments, format); }
    case ChildDecorator(wrapped, fallback) =>
      OptionalStringFindsDefinition(wrapped, key, arguments, format);
      OptionalStringFindsDefinition(fallback, key, arguments, format);
  }

  /** `getOptionalObject(key)`: the local object, else the parent's; never an error. */
  function OptionalObject(r: Resources, key: string): (o: Option<Value>)
    ensures o.None? <==> Definition(r, key).None?
  {
    match r
    case EmptyResources(_) => None
    case BundleResources(_, parent, bundle) =>
      FindObject(bundle, key).Or(match parent case Some(p) => OptionalObject(p, key) case None => None)
    case ChildDecorator(wrapped, fallback) => OptionalObject(wrapped, key).Or(OptionalObject(fallback, key))
  }

  lemma {:induction false} OptionalObjectIsDefinition(r: Resources, key: string)
    ensures OptionalObject(r, key) == Definition(r, key)
  {
    match r
    case EmptyResources(_) =>
    case BundleResources(_, parent, bundle) =>
      if parent.Some? { OptionalObjectIsDefinition(parent.value, key); }
    case ChildDecorator(wrapped, fallback) =>
      OptionalObjectIsDefinition(wrapped, key);
      OptionalObjectIsDefinition(fallback, key);
  }

  /** The typed getters of `AbstractStringResources`: `or(super.getOptionalX(key), parent)`,
      where the local value is the bundle's string converted. */
  function OptionalConverted<T>(r: Resources, key: string, convert: string -> Result<T, Error>): (v: Result<Option<T>, Error>)
    ensures v == Ok(None) <==> Definition(r, key).None?
    ensures Definition(r, key).Some? && Definition(r, key).value.Other? ==> v == Err(NotAString(key))
  {
    match r
    case EmptyResources(_) => Ok(None)
    case BundleResources(_, parent, bundle) =>
      var local :- FindConfigurationValueImpl(bundle, key);
      if local.Some? then
        var v :- convert(local.value);
        Ok(Some(v))
      else (match parent case Some(p) => OptionalConverted(p, key, convert) case None => Ok(None))
    case ChildDecorator(wrapped, fallback) =>
      var first :- OptionalConverted(wrapped, key, convert);
      if first.Some? then Ok(first) else OptionalConverted(fallback, key, convert)
  }

  function ConvertedOf<T>(d: Option<Value>, key: string, convert: string -> Result<T, Error>): Result<Option<T>, Error> {
    match d
    case None => Ok(None)
    case Some(Other(_)) => Err(NotAString(key))
    case Some(Str(s)) => (match convert(s) case Ok(v) => Ok(Some(v)) case Err(e) => Err(e))
  }

  lemma {:induction false} OptionalConvertedFindsDefinition<T>(r: Resources, key: string, convert: string -> Result<T, Error>)
    ensures OptionalConverted(r, key, convert) == ConvertedOf(Definition(r, key), key, convert)
  {
    match r
    case EmptyResources(_) =>
    case BundleResources(_, parent, bundle) =>
      if key !in bundle && parent.Some? { OptionalConvertedFindsDefinition(parent.value, key, convert); }
    case ChildDecorator(wrapped, fallback) =>
      OptionalConvertedFindsDefinition(wrapped, key, convert);
      OptionalConvertedFindsDefinition(fallback, key, convert);
  }

  function BooleanConversion(s: string): Result<bool, Error> {
    Ok(BooleanValueOf(s))
  }

  function IntConversion(s: string): Result<int, Error> {
    match ParseInt(s)
    case Some(v) => Ok(v)
    case None => Err(Unconvertible(s))
  }

  function LongConversion(s: string): Result<int, Error> {
    match ParseLong(s)
    case Some(v) => Ok(v)
    case None => Err(Unconvertible(s))
  }

  /** `getOptionalBoolean(key)` */
  function OptionalBoolean(r: Resources, key: string): (v: Result<Option<bool>, Error>)
    ensures v == Ok(None) <==> Definition(r, key).None?
    ensures Definition(r, key).Some? && Definition(r, key).value.Other? ==> v == Err(NotAString(key))
  {
    OptionalConverted(r, key, BooleanConversion)
  }

  /** `getOptionalInt(key)` */
  function OptionalInt(r: Resources, key: string): (v: Result<Option<int>, Error>)
    ensures v == Ok(None) <==> Definition(r, key).None?
    ensures Definition(r, key).Some? && Definition(r, key).value.Other? ==> v == Err(NotAString(key))
  {
    OptionalConverted(r, key, IntConversion)
  }

  /** `getOptionalLong(key)` */
  function OptionalLong(r: Resources, key: string): (v: Result<Option<int>, Error>)
    ensures v == Ok(None) <==> Definition(r, key).None?
    ensures Definition(r, key).Some? && Definition(r, key).value.Other? ==> v == Err(NotAString(key))
  {
    OptionalConverted(r, key, LongConversion)
  }

  /** Typed lookups convert the nearest definition; a value that does not convert is an
      error, not a reason to look further. */
  lemma TypedLookupsFindDefinition(r: Resources, key: string)
    ensures Definition(r, key).None? ==>
      OptionalBoolean(r, key) == Ok(None) && OptionalInt(r, key) == Ok(None) && OptionalLong(r, key) == Ok(None)
    ensures Definition(r, key).Some? && Definition(r, key).value.Other? ==>
      OptionalBoolean(r, key) == Err(NotAString(key)) && OptionalInt(r, key) == Err(NotAString(key))
      && OptionalLong(r, key) == Err(NotAString(key))
    ensures Definition(r, key).Some? && Definition(r, key).value.Str? ==>
      var text := Definition(r, key).value.s;
      OptionalBoolean(r, key) == Ok(Some(BooleanValueOf(text)))
      && OptionalInt(r, key) == (if ParseInt(text).Some? then Ok(Some(ParseInt(text).value)) else Err(Unconvertible(text)))
      && OptionalLong(r, key) == (if ParseLong(text).Some? then Ok(Some(ParseLong(text).value)) else Err(Unconvertible(text)))
  {
    OptionalConvertedFindsDefinition(r, key, BooleanConversion);
    OptionalConvertedFindsDefinition(r, key, IntConversion);
    OptionalConvertedFindsDefinition(r, key, LongConversion);
  }

  /** `hasResource(key)`, that is `hasConfigurationValue(key)`, searching parents and
      fallbacks. */
  function HasResource(r: Resources, key: string): (b: bool)
    ensures b ==> Definition(r, key).Some?
  {
    match r
    case EmptyResources(_) => false
    case BundleResources(_, parent, bundle) =>
      key in bundle || (match parent case Some(p) => HasResource(p, key) case None => false)
    case ChildDecorator(wrapped, fallback) => HasResource(wrapped, key) || HasResource(fallback, key)
  }

  lemma {:induction false} HasResourceIffDefinition(r: Resources, key: string)
    ensures HasResource(r, key) <==> Definition(r, key).Some?
  {
    match r
    case EmptyResources(_) =>
    case BundleResources(_, parent, bundle) =>
      if parent.Some? { HasResourceIffDefinition(parent.value, key); }
    case ChildDecorator(wrapped, fallback) =>
      HasResourceIffDefinition(wrapped, key);
      HasResourceIffDefinition(fallback, key);
  }

  /** `requireConfiguration(value, key)` */
  function RequireConfiguration<T>(value: Option<T>, key: string): (r: Result<T, Error>)
    ensures r.Ok? <==> value.Some?
    ensures r.Ok? ==> r.value == value.value
    ensures r.Err? ==> r.error == MissingKey(key)
  {
    match value
    case Some(v) => Ok(v)
    case None => Err(MissingKey(key))
  }

  /** `getString(key, arguments)`: missing exactly when nothing defines the key, and otherwise
      a string only when the definition is one. */
  function GetString(r: Resources, key: string, arguments: seq<string>, format: Formatter): (g: Result<string, Error>)
    ensures g == Err(MissingKey(key)) <==> Definition(r, key).None?
    ensures g.Ok? ==> Definition(r, key).Some? && Definition(r, key).value.Str?
  {
    var s :- OptionalString(r, key, arguments, format);
    RequireConfiguration(s, key)
  }

  /** A required string is missing exactly when no resource exists for the key. */
  lemma GetStringMissingIffNoResource(r: Resources, key: string, arguments: seq<string>, format: Formatter)
    ensures GetString(r, key, arguments, format) == Err(MissingKey(key)) <==> !HasResource(r, key)
    ensures Definition(r, key).Some? && Definition(r, key).value.Str? ==>
      GetString(r, key, arguments, format) == Ok(Formatted(Definition(r, key).value.s, arguments, format))
  {
    OptionalStringFindsDefinition(r, key, arguments, format);
    HasResourceIffDefinition(r, key);
  }

  /** `withFallbackResources(Resources)`: the decorator keeps these resources' context class
      and has a resource exactly when these resources or the fallback have it. */
  function WithFallbackResources(r: Resources, fallback: Resources): (d: Resources)
    ensures ContextClass(d) == ContextClass(r)
    ensures forall key :: HasResource(d, key) <==> HasResource(r, key) || HasResource(fallback, key)
  {
    ChildDecorator(r, fallback)
  }

  /** `withFallbackResources(Optional<Resources>)`: these resources themselves when there
      is no fallback; with one, an object lookup asks these resources first. */
  function WithOptionalFallback(r: Resources, fallback: Option<Resources>): (d: Resources)
    ensures ContextClass(d) == ContextClass(r)
    ensures fallback.None? ==> d == r
    ensures fallback.Some? ==> forall key :: OptionalObject(d, key) == OptionalObject(r, key).Or(OptionalObject(fallback.value, key))
  {
    if fallback.Some? then WithFallbackResources(r, fallback.value) else r
  }

  /** Adding a fallback keeps the context class and every value these resources define, and
      adds the fallback's values for the keys these resources lack. */
  lemma FallbackKeepsResources(r: Resources, fallback: Option<Resources>, key: string)
    ensures ContextClass(WithOptionalFallback(r, fallback)) == ContextClass(r)
    ensures Definition(WithOptionalFallback(r, fallback), key) == Definition(r, key).Or(DefinitionIn(fallback, key))
    ensures fallback.None? ==> WithOptionalFallback(r, fallback) == r
  {
  }

  /** Fallback chaining is associative as far as lookups can tell. */
  lemma FallbackAssociative(a: Resources, b: Resources, c: Resources, key: string)
    ensures Definition(WithFallbackResources(WithFallbackResources(a, b), c), key)
      == Definition(WithFallbackResources(a, WithFallbackResources(b, c)), key)
  {
  }
}
