/** The resources of the first-generation tree (`src/main/java/io/rincl`): an
    `EmptyResources` that only delegates, and a `ResourceBundleResources` that looks in its
    bundle before its parent. */
module LegacyResources {
  import opened Wrappers
  import opened TypeGraph
  import opened ResourceBundles
  import opened JavaLang

  datatype Error =
    | NotAString(key: string)                          // ClassCastException from ResourceBundle.getString
    | NumberFormat(text: string)                       // ResourceConfigurationException around a NumberFormatException
    | MissingResource(className: string, key: string)  // MissingResourceException from requireResource

  datatype Resources =
    | EmptyResources(contextClass: Class, parent: Option<Resources>)
    | BundleResources(contextClass: Class, parent: Option<Resources>, bundle: Bundle)

  /** `new MessageFormat(pattern, locale).format(arguments)`, with the locale fixed by the
      caller. */
  type Formatter = (string, seq<string>) -> string

  /** A pattern is formatted only when there are arguments. */
  function Formatted(pattern: string, arguments: seq<string>, format: Formatter): string {
    if |arguments| > 0 then format(pattern, arguments) else pattern
  }

  /** `ResourceBundleResources.getOptionalStringImpl`: the bundle's own string for `key`;
      a stored non-string makes `ResourceBundle.getString` throw. */
  function OptionalStringImpl(bundle: Bundle, key: string): (r: Result<Option<string>, Error>)
    ensures r == Ok(None) <==> key !in bundle
    ensures r.Err? <==> key in bundle && bundle[key].Other?
    ensures r.Err? ==> r.error == NotAString(key)
    ensures r.Ok? && r.value.Some? ==> key in bundle && bundle[key] == Str(r.value.value)
  {
    if key !in bundle then Ok(None)
    else
      match bundle[key]
      case Str(s) => Ok(Some(s))
      case Other(_) => Err(NotAString(key))
  }

  /** The value `key` resolves to: the nearest bundle on the parent chain that holds it.
      `EmptyResources` holds nothing and passes the search on to its parent. */
  function Definition(r: Resources, key: string): Option<Value> {
    match r
    case EmptyResources(_, parent) =>
      (match parent case Some(p) => Definition(p, key) case None => None)
    case BundleResources(_, parent, bundle) =>
      if key in bundle then Some(bundle[key])
      else (match parent case Some(p) => Definition(p, key) case None => None)
  }

  /** What a string lookup of a definition yields. */
  function StringOf(d: Option<Value>, key: string, arguments: seq<string>, format: Formatter): Result<Option<string>, Error> {
    match d
    case None => Ok(None)
    case Some(Str(s)) => Ok(Some(Formatted(s, arguments, format)))
    case Some(Other(_)) => Err(NotAString(key))
  }

  /** `getOptionalString(key, arguments)` as `BaseResources` (line 55) writes it: when the
      bundle has no string, the parent is asked with no arguments at all. Whether a string is
      found, and whether the lookup fails, depends only on the nearest definition. */
  function OptionalStringAsWritten(r: Resources, key: string, arguments: seq<string>, format: Formatter): (s: Result<Option<string>, Error>)
    ensures s == Ok(None) <==> Definition(r, key).None?
    ensures s.Err? <==> Definition(r, key).Some? && Definition(r, key).value.Other?
    ensures s.Err? ==> s.error == NotAString(key)
  {
    match r
    case EmptyResources(_, parent) =>
      (match parent case Some(p) => OptionalStringAsWritten(p, key, arguments, format) case None => Ok(None))
    case BundleResources(_, parent, bundle) =>
      var local :- OptionalStringImpl(bundle, key);
      if local.Some? then Ok(Some(Formatted(local.value, arguments, format)))
      else (match parent case Some(p) => OptionalStringAsWritten(p, key, [], format) case None => Ok(None))
  }

  /** `getOptionalString(key, arguments)` with the arguments passed on to the parent, as
      `EmptyResources` does and as `BaseResourcesTest` expects. */
  function OptionalString(r: Resources, key: string, arguments: seq<string>, format: Formatter): (s: Result<Option<string>, Error>)
    ensures s == Ok(None) <==> Definition(r, key).None?
    ensures s.Err? <==> Definition(r, key).Some? && Definition(r, key).value.Other?
    ensures s.Err? ==> s.error == NotAString(key)
  {
    match r
    case EmptyResources(_, parent) =>
      (match parent case Some(p) => OptionalString(p, key, arguments, format) case None => Ok(None))
    case BundleResources(_, parent, bundle) =>
      var local :- OptionalStringImpl(bundle, key);
      if local.Some? then Ok(Some(Formatted(local.value, arguments, format)))
      else (match parent case Some(p) => OptionalString(p, key, arguments, format) case None => Ok(None))
  }

  /** A string lookup finds the nearest definition, fails if that is not a string, and
      formats it with the caller's arguments wherever on the chain it is. */
  lemma {:induction false} OptionalStringFindsDefinition(r: Resources, key: string, arguments: seq<string>, format: Formatter)
    ensures OptionalString(r, key, arguments, format) == StringOf(Definition(r, key), key, arguments, format)
  {
    match r
    case EmptyResources(_, parent) =>
      if parent.Some? { OptionalStringFindsDefinition(parent.value, key, arguments, format); }
    case BundleResources(_, parent, bundle) =>
      if key !in bundle && parent.Some? { OptionalStringFindsDefinition(parent.value, key, arguments, format); }
  }

  /** Without arguments the code as written is right. */
  lemma {:induction false} AsWrittenWithoutArguments(r: Resources, key: string, format: Formatter)
    ensures OptionalStringAsWritten(r, key, [], format) == OptionalString(r, key, [], format)
  {
    match r
    case EmptyResources(_, parent) =>
      if parent.Some? { AsWrittenWithoutArguments(parent.value, key, format); }
    case BundleResources(_, parent, bundle) =>
      if parent.Some? { AsWrittenWithoutArguments(parent.value, key, format); }
  }

  /** Whether the caller's arguments reach the nearest definition in the code as written:
      only when it lies in the first bundle the lookup comes to, `EmptyResources` passing the
      arguments on unchanged. */
  function ArgumentsReach(r: Resources, key: string): bool {
    match r
    case EmptyResources(_, parent) =>
      (match parent case Some(p) => ArgumentsReach(p, key) case None => false)
    case BundleResources(_, _, bundle) => key in bundle
  }

  /** The code as written finds the nearest definition too, but formats it with the caller's
      arguments only when they reach it, and otherwise returns the pattern as stored. */
  lemma {:induction false} AsWrittenFindsDefinition(r: Resources, key: string, arguments: seq<string>, format: Formatter)
    ensures OptionalStringAsWritten(r, key, arguments, format)
      == StringOf(Definition(r, key), key, if ArgumentsReach(r, key) then arguments else [], format)
  {
    match r
    case EmptyResources(_, parent) =>
      if parent.Some? { AsWrittenFindsDefinition(parent.value, key, arguments, format); }
    case BundleResources(_, parent, bundle) =>
      if key !in bundle && parent.Some? {
        AsWrittenWithoutArguments(parent.value, key, format);
        OptionalStringFindsDefinition(parent.value, key, [], format);
      }
  }

  /** With arguments, the code as written returns the parent's pattern unformatted: the
      child/parent case of `BaseResourcesTest.testGetOptionalString`. */
  lemma ArgumentsDroppedForParent(c: Class, p: Class, format: Formatter)
    requires format("foo {0}", ["bar"]) == "foo bar"
    ensures var parent := BundleResources(p, None, map["foo" := Str("foo {0}")]);
      var child := BundleResources(c, Some(parent), map[]);
      OptionalStringAsWritten(child, "foo", ["bar"], format) == Ok(Some("foo {0}"))
      && OptionalString(child, "foo", ["bar"], format) == Ok(Some("foo bar"))
  {
  }

  /** `hasResource` as written: a bundle checks itself then its parent, but
      `EmptyResources` answers false whatever its parent holds. */
  function HasResourceAsWritten(r: Resources, key: string): (b: bool)
    ensures b ==> Definition(r, key).Some?
    ensures r.EmptyResources? ==> !b
  {
    match r
    case EmptyResources(_, _) => false
    case BundleResources(_, parent, bundle) =>
      key in bundle || (match parent case Some(p) => HasResourceAsWritten(p, key) case None => false)
  }

  /** `hasResource` searching the parent hierarchy from `EmptyResources` too, as the
      interface documents it. */
  function HasResource(r: Resources, key: string): (b: bool)
    ensures b ==> Definition(r, key).Some?
  {
    match r
    case EmptyResources(_, parent) =>
      (match parent case Some(p) => HasResource(p, key) case None => false)
    case BundleResources(_, parent, bundle) =>
      key in bundle || (match parent case Some(p) => HasResource(p, key) case None => false)
  }

  /** A resource exists exactly when a lookup of it would find a definition. */
  lemma {:induction false} HasResourceIffDefinition(r: Resources, key: string)
    ensures HasResource(r, key) <==> Definition(r, key).Some?
  {
    match r
    case EmptyResources(_, parent) =>
      if parent.Some? { HasResourceIffDefinition(parent.value, key); }
    case BundleResources(_, parent, bundle) =>
      if parent.Some? { HasResourceIffDefinition(parent.value, key); }
  }

  /** The code as written never claims a resource that does not exist. */
  lemma {:induction false} AsWrittenHasResourceSound(r: Resources, key: string)
    ensures HasResourceAsWritten(r, key) ==> HasResource(r, key)
  {
    match r
    case EmptyResources(_, _) =>
    case BundleResources(_, parent, bundle) =>
      if parent.Some? { AsWrittenHasResourceSound(parent.value, key); }
  }

  /** No `EmptyResources` on the chain has a parent: the chains on which the code as written
      is right. */
  predicate NoEmptyWithParent(r: Resources) {
    match r
    case EmptyResources(_, parent) => parent.None?
    case BundleResources(_, parent, _) => (match parent case Some(p) => NoEmptyWithParent(p) case None => true)
  }

  /** On such chains a bundle store answers from its bundle and otherwise from its parent, so
      the code as written reports exactly the keys with a definition. */
  lemma {:induction false} AsWrittenComplete(r: Resources, key: string)
    requires NoEmptyWithParent(r)
    ensures HasResourceAsWritten(r, key) <==> Definition(r, key).Some?
  {
    match r
    case EmptyResources(_, _) =>
    case BundleResources(_, parent, bundle) =>
      if parent.Some? { AsWrittenComplete(parent.value, key); }
  }

  /** An `EmptyResources` whose parent holds the key denies having it, though a string
      lookup through it finds the value. */
  lemma EmptyResourcesDeniesParentResource(c: Class, p: Class, format: Formatter)
    ensures var r := EmptyResources(c, Some(BundleResources(p, None, map["k" := Str("v")])));
      !HasResourceAsWritten(r, "k") && HasResource(r, "k")
      && OptionalString(r, "k", [], format) == Ok(Some("v"))
  {
  }

  /** The shape of the typed lookups of `AbstractStringResources` and `EmptyResources`: the
      local string converted, otherwise the parent's lookup; a conversion error is not
      replaced by the parent's value. */
  function OptionalConverted<T>(r: Resources, key: string, convert: string -> Result<T, Error>): (v: Result<Option<T>, Error>)
    ensures v == Ok(None) <==> Definition(r, key).None?
    ensures Definition(r, key).Some? && Definition(r, key).value.Other? ==> v == Err(NotAString(key))
  {
    match r
    case EmptyResources(_, parent) =>
      (match parent case Some(p) => OptionalConverted(p, key, convert) case None => Ok(None))
    case BundleResources(_, parent, bundle) =>
      var local :- OptionalStringImpl(bundle, key);
      if local.Some? then
        var v :- convert(local.value);
        Ok(Some(v))
      else (match parent case Some(p) => OptionalConverted(p, key, convert) case None => Ok(None))
  }

  /** What a typed lookup of a definition yields. */
  function ConvertedOf<T>(d: Option<Value>, key: string, convert: string -> Result<T, Error>): Result<Option<T>, Error> {
    match d
    case None => Ok(None)
    case Some(Other(_)) => Err(NotAString(key))
    case Some(Str(s)) => (match convert(s) case Ok(v) => Ok(Some(v)) case Err(e) => Err(e))
  }

  lemma {:induction false} OptionalConvertedFindsDefinition<T>(r: Resources, key: string, convert: string -> Result<T, Error>)
    ensures OptionalConverted(r, key, convert) == ConvertedOf(Definition(r, key), key, convert)
  {
    match r
    case EmptyResources(_, parent) =>
      if parent.Some? { OptionalConvertedFindsDefinition(parent.value, key, convert); }
    case BundleResources(_, parent, bundle) =>
      if key !in bundle && parent.Some? { OptionalConvertedFindsDefinition(parent.value, key, convert); }
  }

  function BooleanConversion(s: string): Result<bool, Error> {
    Ok(BooleanValueOf(s))
  }

  function IntConversion(s: string): Result<int, Error> {
    match ParseInt(s)
    case Some(v) => Ok(v)
    case None => Err(NumberFormat(s))
  }

  /** `getOptionalBoolean(key)` */
  function OptionalBoolean(r: Resources, key: string): (v: Result<Option<bool>, Error>)
    ensures v == Ok(None) <==> Definition(r, key).None?
    ensures Definition(r, key).Some? && Definition(r, key).value.Other? ==> v == Err(NotAString(key))
  {
    OptionalConverted(r, key, BooleanConversion)
  }

  /** `getOptionalInt(key)` */
  function OptionalInt(r: Resources, key: string): (v: Result<Option<int>, Error>)
    ensures v == Ok(None) <==> Definition(r, key).None?
    ensures Definition(r, key).Some? && Definition(r, key).value.Other? ==> v == Err(NotAString(key))
  {
    OptionalConverted(r, key, IntConversion)
  }

  /** A Boolean lookup is `Boolean.valueOf` of the nearest definition, and never a number
      format error. */
  lemma OptionalBooleanFindsDefinition(r: Resources, key: string)
    ensures Definition(r, key).None? ==> OptionalBoolean(r, key) == Ok(None)
    ensures Definition(r, key).Some? && Definition(r, key).value.Str? ==>
      OptionalBoolean(r, key) == Ok(Some(BooleanValueOf(Definition(r, key).value.s)))
    ensures OptionalBoolean(r, key).Err? <==> Definition(r, key).Some? && Definition(r, key).value.Other?
    ensures OptionalBoolean(r, key).Err? ==> OptionalBoolean(r, key).error == NotAString(key)
  {
    OptionalConvertedFindsDefinition(r, key, BooleanConversion);
  }

  /** An integer lookup parses the nearest definition; text `Integer.valueOf` rejects is an
      error, not a reason to look further up the chain. */
  lemma OptionalIntFindsDefinition(r: Resources, key: string)
    ensures Definition(r, key).None? ==> OptionalInt(r, key) == Ok(None)
    ensures Definition(r, key).Some? && Definition(r, key).value.Str? ==>
      var text := Definition(r, key).value.s;
      OptionalInt(r, key) == (if ParseInt(text).Some? then Ok(Some(ParseInt(text).value)) else Err(NumberFormat(text)))
    ensures Definition(r, key).Some? && Definition(r, key).value.Other? ==> OptionalInt(r, key) == Err(NotAString(key))
  {
    OptionalConvertedFindsDefinition(r, key, IntConversion);
  }

  /** A malformed local number hides a well-formed one in the parent. */
  lemma MalformedLocalNumberHidesParent(c: Class, p: Class)
    ensures var r := BundleResources(c, Some(BundleResources(p, None, map["n" := Str("7")])), map["n" := Str("seven")]);
      OptionalInt(r, "n") == Err(NumberFormat("seven"))
  {
    assert !IsDigit("seven"[0]);
  }

  /** `requireResource(resource, key)`: the value, or a `MissingResourceException` naming
      the context class and the key. */
  function RequireResource<T>(r: Resources, resource: Option<T>, key: string): (result: Result<T, Error>)
    ensures result.Ok? <==> resource.Some?
    ensures result.Ok? ==> result.value == resource.value
    ensures result.Err? ==> result.error == MissingResource(r.contextClass.name, key)
  {
    match resource
    case Some(v) => Ok(v)
    case None => Err(MissingResource(r.contextClass.name, key))
  }

  /** `getString(key, arguments)`, over `getOptionalString` as `BaseResources` writes it:
      missing exactly when nothing defines the key, and otherwise a string only when the
      definition is one. */
  function GetString(r: Resources, key: string, arguments: seq<string>, format: Formatter): (g: Result<string, Error>)
    ensures g == Err(MissingResource(r.contextClass.name, key)) <==> Definition(r, key).None?
    ensures g.Ok? ==> Definition(r, key).Some? && Definition(r, key).value.Str?
  {
    var s :- OptionalStringAsWritten(r, key, arguments, format);
    RequireResource(r, s, key)
  }

  /** `getString(key, arguments)` over the corrected `getOptionalString`. */
  function GetStringCorrected(r: Resources, key: string, arguments: seq<string>, format: Formatter): (g: Result<string, Error>)
    ensures g == Err(MissingResource(r.contextClass.name, key)) <==> Definition(r, key).None?
    ensures g.Ok? ==> Definition(r, key).Some? && Definition(r, key).value.Str?
  {
    var s :- OptionalString(r, key, arguments, format);
    RequireResource(r, s, key)
  }

  /** `getBoolean(key)`: missing exactly when nothing defines the key, otherwise
      `Boolean.valueOf` of the definition when it is a string. */
  function GetBoolean(r: Resources, key: string): (g: Result<bool, Error>)
    ensures g == Err(MissingResource(r.contextClass.name, key)) <==> Definition(r, key).None?
    ensures Definition(r, key).Some? && Definition(r, key).value.Str? ==> g == Ok(BooleanValueOf(Definition(r, key).value.s))
  {
    OptionalBooleanFindsDefinition(r, key);
    var b :- OptionalBoolean(r, key);
    RequireResource(r, b, key)
  }

  /** `getInt(key)`: missing exactly when nothing defines the key, otherwise the parsed
      definition or its number format error. */
  function GetInt(r: Resources, key: string): (g: Result<int, Error>)
    ensures g == Err(MissingResource(r.contextClass.name, key)) <==> Definition(r, key).None?
    ensures Definition(r, key).Some? && Definition(r, key).value.Str? ==>
      var text := Definition(r, key).value.s;
      g == (if ParseInt(text).Some? then Ok(ParseInt(text).value) else Err(NumberFormat(text)))
  {
    OptionalIntFindsDefinition(r, key);
    var i :- OptionalInt(r, key);
    RequireResource(r, i, key)
  }

  /** A required string is missing exactly when no resource exists. A string definition comes
      back formatted when the caller's arguments reach it, and as stored when it lies past a
      bundle that lacks the key. */
  lemma GetStringFindsDefinition(r: Resources, key: string, arguments: seq<string>, format: Formatter)
    ensures GetString(r, key, arguments, format) == Err(MissingResource(r.contextClass.name, key)) <==> !HasResource(r, key)
    ensures Definition(r, key).Some? && Definition(r, key).value.Str? ==>
      GetString(r, key, arguments, format)
      == Ok(Formatted(Definition(r, key).value.s, if ArgumentsReach(r, key) then arguments else [], format))
  {
    AsWrittenFindsDefinition(r, key, arguments, format);
    HasResourceIffDefinition(r, key);
  }

  /** With the correction, a required string is the nearest definition formatted with the
      caller's arguments wherever on the chain it is. */
  lemma GetStringCorrectedFindsDefinition(r: Resources, key: string, arguments: seq<string>, format: Formatter)
    ensures GetStringCorrected(r, key, arguments, format) == Err(MissingResource(r.contextClass.name, key)) <==> !HasResource(r, key)
    ensures Definition(r, key).Some? && Definition(r, key).value.Str? ==>
      GetStringCorrected(r, key, arguments, format) == Ok(Formatted(Definition(r, key).value.s, arguments, format))
  {
    OptionalStringFindsDefinition(r, key, arguments, format);
    HasResourceIffDefinition(r, key);
  }

  /** A required Boolean is missing exactly when no resource exists. */
  lemma GetBooleanMissingIffNoResource(r: Resources, key: string)
    ensures GetBoolean(r, key) == Err(MissingResource(r.contextClass.name, key)) <==> !HasResource(r, key)
  {
    OptionalBooleanFindsDefinition(r, key);
    HasResourceIffDefinition(r, key);
  }

  /** A required integer is missing exactly when no resource exists. */
  lemma GetIntMissingIffNoResource(r: Resources, key: string)
    ensures GetInt(r, key) == Err(MissingResource(r.contextClass.name, key)) <==> !HasResource(r, key)
  {
    OptionalIntFindsDefinition(r, key);
    HasResourceIffDefinition(r, key);
  }
}
