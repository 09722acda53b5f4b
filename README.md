# Rincl resource lookup, modelled in Dafny

Rincl ("resource internationalization") finds localized resources for a Java class. A
*resources factory* turns a context class and a locale into a `Resources` store. The store
answers typed lookups (`getString`, `getBoolean`, `getInt`, `getLong`, `hasResource`). The
resource-bundle factories build the store as follows. The *resolving class strategy* lists
the context class, its superclasses (stopping before `Object`) and then their interfaces,
breadth first, each class once. A *base name strategy* gives the bundle base names to try
for each of those classes. Each class whose bundle loads becomes a `ResourceBundleResources`
store. These stores are chained so that a key is found in the earliest class that defines
it. A custom `ResourceBundle.Control` reads the bundle files through pluggable loaders
(UTF-8 `.properties`, XML `.properties.xml`) and falls back to the JDK's own control.

The repository holds two generations of this design, and both are modelled:

- **First generation** (`src/`): parent-linked `ResourceBundleResources` chains, built by a
  reverse loop over the resolving classes. Modules `LegacyResources`,
  `LegacyBundleFactory` and `LegacyBundleControl`.
- **Second generation** (`rincl/`, `rincl-resourcebundle/`): stores without a parent of
  their own, joined by `ChildResourcesDecorator` fallbacks built by a forward loop, with the
  parent factory's resources as the last fallback. Modules `RinclResources`,
  `RinclResourcesFactory`, `RinclBundleFactory` and `RinclControl`.

Shared pieces:

- `TypeGraph`: classes, superclasses and declared interfaces.
- `LinkedSet`: `LinkedHashSet` as an insertion-ordered sequence.
- `ResolvingClassStrategy` and `BaseNameStrategy`.
- `ResourceBundles`: the bundles `ResourceBundle.getBundle` can find, as a lookup table.
- `BundleLoading`: bundle and resource names, loaders, and the `getFormats` merge.
- `JavaLang`: `Boolean.valueOf`, `Integer.valueOf` and `Long.valueOf` on strings.
- `LocaleSelections`: the per-category locale store.
- `Scenarios`: the class hierarchy of the library's tests and what resolving it gives.

Modelling conventions:

- A class is `Class(name, rank)`. A well-formed hierarchy sends every superclass and
  interface edge to a strictly smaller rank. Every finite acyclic JVM hierarchy can be
  numbered this way, and the rank makes the superclass walk and the interface queue
  terminate.
- A class without a class loader is a member of `Hierarchy.loaderless`.
- A bundle is a `map<string, Value>`. A value is a `Str` or some `Other` object.
- `ResourceBundle.getBundle` is a table from (base name, locale) to bundle. A missing entry
  stands for `MissingResourceException`.
- The class loader's resources, each loader's `load`, and the JDK's own `newBundle` are
  fields of an `Environment` value. `MessageFormat.format` is a `Formatter` function
  parameter. `Locale.getDefault(category)` is a `defaults` function parameter.
- Exceptions become `Result` errors: not a string, a malformed number, a missing resource
  key, a character coding failure, another I/O failure.

Where the documentation and the code disagree, the model follows the code:

- The `RinclResourceBundleControl` constructor documentation
  (`rincl-resourcebundle/.../RinclResourceBundleControl.java` lines 86-88) says the loaders'
  formats are tried before the JDK's. `getFormats` (lines 115-124) appends them after the
  JDK's formats, which is what `RinclControl.GetFormats` states.
- The first-generation `EmptyResources` documentation (lines 25-30) and
  `Resources.hasResource` (lines 59-69) say lookups search the parent. `hasResource` (lines
  62-65) answers `false` regardless. See Findings.

Code these files call but that is not visible is modelled by assumption; each assumption
is listed under "## Left out".

## Model

| member | source | states |
|---|---|---|
| TypeGraph.Superclass | src/main/java/io/rincl/resourcebundle/ResolvingClassStrategy.java:48 | `getSuperclass()` lies strictly lower in the hierarchy and is never an interface; interfaces and `Object` have none |
| TypeGraph.Interfaces | src/main/java/io/rincl/resourcebundle/ResolvingClassStrategy.java:58 | `getInterfaces()` yields only interfaces, all strictly lower in the hierarchy |
| LinkedSet.Add | src/main/java/io/rincl/resourcebundle/ResolvingClassStrategy.java:62 | `LinkedHashSet.add` keeps existing elements and their order, keeps the set duplicate-free, and the result holds exactly the old elements plus the new one |
| LinkedSet.AddAll | src/main/java/io/rincl/resourcebundle/ResolvingClassStrategy.java:52 | adding a sequence keeps the prefix, preserves distinctness, and yields the union of the elements |
| LinkedSet.AddAllAppend | src/main/java/io/rincl/resourcebundle/ResolvingClassStrategy.java:56-67 | adding `a + b` is adding `a` and then `b`, which lets the per-class loop be composed |
| LinkedSet.AddAllSnoc | src/main/java/io/rincl/resourcebundle/ResolvingClassStrategy.java:56-67 | adding the elements of `xs` and then `x` is adding `x` to the result of adding `xs` |
| LinkedSet.AddAllDistinct | src/main/java/io/rincl/resourcebundle/ResolvingClassStrategy.java:52 | a duplicate-free list copied into a linked set comes back unchanged, in order |
| LinkedSet.IndexOf | src/main/java/io/rincl/resourcebundle/ResolvingClassStrategy.java:50-52 | the position of the first occurrence; it holds the element, and no earlier position does |
| LinkedSet.PrefixPrecedes | src/main/java/io/rincl/resourcebundle/ResolvingClassStrategy.java:50-52 | in a set that extends a prefix, an element of the prefix comes before every element outside it |
| LinkedSet.AddAllPrecedes | src/main/java/io/rincl/resourcebundle/ResolvingClassStrategy.java:50-67 | an element present before the second part of an insertion precedes every element only that part adds |
| ResolvingClassStrategy.ParentClasses | src/main/java/io/rincl/resourcebundle/ResolvingClassStrategy.java:44-49 | the superclass walk is nonempty and starts at the context class |
| ResolvingClassStrategy.ParentClassesDistinct | src/main/java/io/rincl/resourcebundle/ResolvingClassStrategy.java:44-49 | the walk only goes up, so it never repeats a class |
| ResolvingClassStrategy.ParentClassesLinked | src/main/java/io/rincl/resourcebundle/ResolvingClassStrategy.java:46-49 | each later entry is the superclass of the one before it and is not `Object` |
| ResolvingClassStrategy.ParentClassesEnd | src/main/java/io/rincl/resourcebundle/ResolvingClassStrategy.java:49 | the walk stops exactly at a class whose superclass is null or `Object` |
| ResolvingClassStrategy.BreadthFirst | src/main/java/io/rincl/resourcebundle/ResolvingClassStrategy.java:59-65 | a queue of interfaces visits only interfaces |
| ResolvingClassStrategy.BreadthFirstLayers | src/main/java/io/rincl/resourcebundle/ResolvingClassStrategy.java:59-65 | the queue is visited in order, whole, before any interface it enqueues (breadth first) |
| ResolvingClassStrategy.DeclaredInterfacesFirst | src/main/java/io/rincl/resourcebundle/ResolvingClassStrategy.java:58-65 | a class's directly declared interfaces come first, in declaration order |
| ResolvingClassStrategy.ResolvingClasses | src/main/java/io/rincl/resourcebundle/ResolvingClassStrategy.java:43-69 | `DEFAULT` starts with the superclass walk, has no duplicates, begins with the context class, and holds exactly the walk plus the interfaces reached from it |
| ResolvingClassStrategy.Resolve | src/main/java/io/rincl/resourcebundle/ResolvingClassStrategy.java:43-72 | either strategy yields a duplicate-free list headed by the context class; `NO_ANCESTORS` yields the class alone |
| ResolvingClassStrategy.DefaultResolvingClasses | src/main/java/io/rincl/resourcebundle/ResolvingClassStrategy.java:43-69 | the imperative `DEFAULT` body computes `ResolvingClasses` |
| ResolvingClassStrategy.ResolvingClassesFor | src/main/java/io/rincl/resourcebundle/ResolvingClassStrategy.java:82 | `resolvingClasses(contextClass)` of the chosen strategy computes `Resolve` |
| ResolvingClassStrategy.CollectParentClasses | src/main/java/io/rincl/resourcebundle/ResolvingClassStrategy.java:45-49 | the do-while loop computes the superclass walk |
| ResolvingClassStrategy.AddInterfaceLevels | src/main/java/io/rincl/resourcebundle/ResolvingClassStrategy.java:56-67 | the per-class loop adds each class's breadth-first interfaces, in chain order, to the linked set |
| ResolvingClassStrategy.DrainInterfaceQueue | src/main/java/io/rincl/resourcebundle/ResolvingClassStrategy.java:59-65 | draining the queue adds its breadth-first visiting order to the linked set |
| ResolvingClassStrategy.InterfaceLevelsAppend | src/main/java/io/rincl/resourcebundle/ResolvingClassStrategy.java:56-67 | the interfaces of a concatenated chain are those of its parts, concatenated |
| ResolvingClassStrategy.InterfaceLevelsAreInterfaces | src/main/java/io/rincl/resourcebundle/ResolvingClassStrategy.java:56-67 | everything the interface searches reach is an interface |
| ResolvingClassStrategy.ClassesBeforeInterfaces | src/main/java/io/rincl/resourcebundle/ResolvingClassStrategy.java:50-67 | after the context class, a position holds an interface exactly when it lies past the superclasses |
| ResolvingClassStrategy.LevelsPrecede | src/main/java/io/rincl/resourcebundle/ResolvingClassStrategy.java:56-67 | what is reached from the first `k` classes precedes what only later classes reach |
| ResolvingClassStrategy.LevelPriority | src/main/java/io/rincl/resourcebundle/ResolvingClassStrategy.java:50-67 | in `DEFAULT`, interfaces of more derived classes come before those reached only from less derived classes |
| ResolvingClassStrategy.NoInterfacesNoLevels | src/main/java/io/rincl/resourcebundle/ResolvingClassStrategy.java:56-67 | a chain declaring no interfaces adds none |
| ResolvingClassStrategy.OnlySuperclassesWithoutInterfaces | src/main/java/io/rincl/resourcebundle/ResolvingClassStrategy.java:43-69 | with no interfaces along the walk, `DEFAULT` is the superclass walk itself |
| BaseNameStrategy.BaseNames | rincl-resourcebundle/src/main/java/io/rincl/resourcebundle/BaseNameStrategy.java:33-60 | each strategy's candidates: the class name alone, names then class name, class name then names, or the names alone |
| BaseNameStrategy.ExplicitNamesIgnoreClass | rincl-resourcebundle/src/main/java/io/rincl/resourcebundle/BaseNameStrategy.java:58-60 | explicit base names are the same for every class |
| BaseNameStrategy.ClassNameOnly | rincl-resourcebundle/src/main/java/io/rincl/resourcebundle/BaseNameStrategy.java:33-51 | class-name-first with no names is the class base name strategy |
| BaseNameStrategy.CandidateMembership | rincl-resourcebundle/src/main/java/io/rincl/resourcebundle/BaseNameStrategy.java:33-60 | every configured name is tried; the class name is tried exactly when the names are not explicit or include it |
| ResourceBundles.FirstBundle | src/main/java/io/rincl/resourcebundle/ResourceBundleResourcesFactory.java:243-251 | no bundle exactly when no candidate base name loads |
| ResourceBundles.FirstBundleIsEarliest | src/main/java/io/rincl/resourcebundle/ResourceBundleResourcesFactory.java:243-249 | a found bundle is that of the earliest base name that loads |
| ResourceBundles.ResourceBundleFor | rincl-resourcebundle/src/main/java/io/rincl/resourcebundle/ResourceBundleResourcesFactory.java:335-356 | `getResourceBundle` finds a bundle exactly when the class has a class loader and some base name loads |
| ResourceBundles.GetResourceBundle | rincl-resourcebundle/src/main/java/io/rincl/resourcebundle/ResourceBundleResourcesFactory.java:338-355 | the loop with its early return computes `ResourceBundleFor` |
| ResourceBundles.FirstDefinitionAppend | rincl-resourcebundle/src/main/java/io/rincl/resourcebundle/ResourceBundleResourcesFactory.java:309-315 | a lookup over `a + b` is `a`'s definition, or else `b`'s |
| ResourceBundles.FirstDefinitionNone | rincl-resourcebundle/src/main/java/io/rincl/resourcebundle/ResourceBundleResourcesFactory.java:309-315 | nothing is found exactly when no class in the sequence defines the key |
| ResourceBundles.FirstDefinitionAt | rincl-resourcebundle/src/main/java/io/rincl/resourcebundle/ResourceBundleResourcesFactory.java:309-315 | the earliest class defining the key supplies the value found |
| ResourceBundles.FirstDefinitionIsEarliest | rincl-resourcebundle/src/main/java/io/rincl/resourcebundle/ResourceBundleResourcesFactory.java:309-315 | a definition is found exactly when some class defines the key, and it is the earliest such class's value |
| JavaLang.BooleanValueOf | src/main/java/io/rincl/AbstractStringResources.java:50 | `Boolean.valueOf` is true exactly for "true" in any ASCII letter case |
| JavaLang.BooleanValueOfExamples | src/main/java/io/rincl/AbstractStringResources.java:50 | "true", "TRUE" and "True" are true; "false", "yes", "" and "true " are false |
| JavaLang.ParseInteger | src/main/java/io/rincl/AbstractStringResources.java:81-86 | a parsed value lies in the type's range; the empty string and a lone sign do not parse |
| JavaLang.ParseInt | src/main/java/io/rincl/AbstractStringResources.java:81 | `Integer.valueOf` gives only 32-bit values |
| JavaLang.ParseLong | rincl/src/main/java/io/rincl/AbstractStringResources.java:125-127 | `Long.valueOf` gives only 64-bit values |
| JavaLang.NatDigits | src/main/java/io/rincl/AbstractStringResources.java:81 | the decimal form of a natural number is a nonempty digit string denoting it |
| JavaLang.ParseDecimal | src/main/java/io/rincl/AbstractStringResources.java:81-86 | parsing `toString(n)` gives back `n` when it is in range, and fails (`NumberFormatException`) when it is not |
| JavaLang.ParseIntExamples | src/main/java/io/rincl/AbstractStringResources.java:81-86 | "42", "-7", "+7" parse; "", "-", "4x" do not |
| LegacyResources.OptionalStringImpl | src/main/java/io/rincl/resourcebundle/ResourceBundleResources.java:96-110 | no string exactly when the bundle lacks the key; an error exactly when the value is not a string; otherwise the bundle's string |
| LegacyResources.OptionalStringAsWritten | src/main/java/io/rincl/BaseResources.java:46-58 | `getOptionalString(key, arguments)` as written, asking the parent with `getOptionalString(key)`: none exactly when nothing on the chain defines the key, a not-a-string error exactly when the nearest value is another object |
| LegacyResources.OptionalString | src/main/java/io/rincl/BaseResources.java:46-58 | (corrected) the same lookup passing the arguments to the parent, with the same none and error cases |
| LegacyResources.OptionalStringFindsDefinition | src/main/java/io/rincl/BaseResources.java:46-58 | (corrected) a string lookup is the nearest definition along the parent chain, formatted with the arguments |
| LegacyResources.AsWrittenFindsDefinition | src/main/java/io/rincl/BaseResources.java:46-58 | as written, the lookup finds the nearest definition but formats it only when it lies in the first bundle reached, and otherwise returns the stored pattern |
| LegacyResources.AsWrittenWithoutArguments | src/main/java/io/rincl/BaseResources.java:46-58 | without arguments the code as written agrees with the corrected lookup |
| LegacyResources.ArgumentsDroppedForParent | src/main/java/io/rincl/BaseResources.java:55 | as written, a child without the key returns the parent's pattern unformatted ("foo {0}") where the test expects "foo bar" |
| LegacyResources.HasResourceAsWritten | src/main/java/io/rincl/resourcebundle/ResourceBundleResources.java:80-88 | `hasResource` as written: a store that claims the key has a definition for it somewhere in the chain, and an `EmptyResources` never claims it, whatever its parent holds |
| LegacyResources.HasResource | src/main/java/io/rincl/Resources.java:59-69 | (corrected) `hasResource` searching the parents from `EmptyResources` too: a resource it reports is defined |
| LegacyResources.HasResourceIffDefinition | src/main/java/io/rincl/Resources.java:59-69 | (corrected) a resource exists exactly when a lookup along the parent chain finds a definition |
| LegacyResources.AsWrittenHasResourceSound | src/main/java/io/rincl/resourcebundle/ResourceBundleResources.java:80-88 | the code as written never claims a resource that does not exist |
| LegacyResources.AsWrittenComplete | src/main/java/io/rincl/resourcebundle/ResourceBundleResources.java:80-88 | on a chain in which no `EmptyResources` has a parent, the as-written `hasResource` holds exactly when the chain defines the key |
| LegacyResources.EmptyResourcesDeniesParentResource | src/main/java/io/rincl/EmptyResources.java:62-65 | as written, an empty store whose parent holds a key denies the key that its string lookup finds |
| LegacyResources.OptionalConverted | src/main/java/io/rincl/AbstractStringResources.java:48-87 | a typed lookup is none exactly when nothing defines the key, and a not-a-string error when the nearest value is another object |
| LegacyResources.OptionalBoolean | src/main/java/io/rincl/AbstractStringResources.java:48-53 | `getOptionalBoolean` is empty exactly when the chain has no definition, and a first definition that is not a string fails with the not-a-string error |
| LegacyResources.OptionalInt | src/main/java/io/rincl/AbstractStringResources.java:78-87 | `getOptionalInt` is empty exactly when the chain has no definition, and a first definition that is not a string fails with the not-a-string error |
| LegacyResources.OptionalConvertedFindsDefinition | src/main/java/io/rincl/AbstractStringResources.java:48-87 | a typed lookup converts the nearest definition along the parent chain |
| LegacyResources.OptionalBooleanFindsDefinition | src/main/java/io/rincl/AbstractStringResources.java:48-53 | `getOptionalBoolean`: none when nothing defines the key, `Boolean.valueOf` of the nearest string, and a not-a-string error exactly when the nearest value is another object |
| LegacyResources.OptionalIntFindsDefinition | src/main/java/io/rincl/AbstractStringResources.java:78-87 | `getOptionalInt`: none when undefined, the parsed nearest string, a not-a-string error for other objects |
| LegacyResources.MalformedLocalNumberHidesParent | src/main/java/io/rincl/AbstractStringResources.java:81-86 | a malformed local number is an error even though the parent holds a valid one |
| LegacyResources.RequireResource | src/main/java/io/rincl/Resources.java:54-57 | a present value is returned; an absent one is a missing-resource error naming the context class and key |
| LegacyResources.GetString | src/main/java/io/rincl/Resources.java:161-164 | `getString` over the as-written `getOptionalString`: a missing resource exactly when nothing defines the key, a string only when the definition is one |
| LegacyResources.GetStringCorrected | src/main/java/io/rincl/Resources.java:161-164 | (corrected) `getString` over the corrected `getOptionalString`, with the same missing and string cases |
| LegacyResources.GetBoolean | src/main/java/io/rincl/Resources.java:81-83 | `getBoolean`: a missing resource exactly when nothing defines the key, otherwise `Boolean.valueOf` of a string definition |
| LegacyResources.GetInt | src/main/java/io/rincl/Resources.java:127-129 | `getInt`: a missing resource exactly when nothing defines the key, otherwise the parsed string definition or its number format error |
| LegacyResources.GetStringFindsDefinition | src/main/java/io/rincl/Resources.java:161-164 | as written, `getString` reports a missing resource exactly when no resource exists; a string definition comes back formatted only when the arguments reach it, and otherwise as stored |
| LegacyResources.GetStringCorrectedFindsDefinition | src/main/java/io/rincl/Resources.java:161-164 | (corrected) the nearest string definition comes back formatted with the arguments wherever it lies |
| LegacyResources.GetBooleanMissingIffNoResource | src/main/java/io/rincl/Resources.java:81-83 | `getBoolean` reports a missing resource exactly when no resource exists |
| LegacyResources.GetIntMissingIffNoResource | src/main/java/io/rincl/Resources.java:127-129 | `getInt` reports a missing resource exactly when no resource exists |
| LegacyBundleFactory.ChainOver | src/main/java/io/rincl/resourcebundle/ResourceBundleResourcesFactory.java:204-221 | the chain over the resolving classes: present whenever the parent resources are, and anything other than the parent resources is a bundle store of a resolving class |
| LegacyBundleFactory.GetOptionalResources | src/main/java/io/rincl/resourcebundle/ResourceBundleResourcesFactory.java:204-221 | the reverse loop wraps the parent factory's resources with one store per resolving class that has a bundle |
| LegacyBundleFactory.ChainDefinition | src/main/java/io/rincl/resourcebundle/ResourceBundleResourcesFactory.java:204-221 | a key resolves to the earliest resolving class defining it, and only otherwise to the parent factory's resources |
| LegacyBundleFactory.ChainOutermost | src/main/java/io/rincl/resourcebundle/ResourceBundleResourcesFactory.java:209-220 | with no bundle the parent resources come back as they are; otherwise the outermost store is that of the first class with a bundle |
| LegacyBundleFactory.FactoryStringLookup | src/main/java/io/rincl/resourcebundle/ResourceBundleResourcesFactory.java:204-221 | as `BaseResources` writes the lookup, a string in the factory's resources is the nearest definition among the resolving classes, else the parent's, formatted only when the outermost bundle holds the key |
| LegacyBundleFactory.FactoryStringLookupCorrected | src/main/java/io/rincl/resourcebundle/ResourceBundleResourcesFactory.java:204-221 | (corrected) with the corrected lookup, that definition always comes back formatted |
| LegacyBundleControl.GetFormats | src/main/java/io/rincl/resourcebundle/RinclResourceBundleControl.java:44-53 | the JDK formats followed by the XML loader's suffixes not already among them |
| LegacyBundleControl.LegacyFormats | src/main/java/io/rincl/resourcebundle/RinclResourceBundleControl.java:44-53 | hence exactly `java.class`, `java.properties`, `properties.xml` |
| LegacyBundleControl.NewBundleOver | src/main/java/io/rincl/resourcebundle/RinclResourceBundleControl.java:64-83 | the loop over the loader's suffixes departs from the JDK's answer only for a format among the suffixes whose resource opens |
| LegacyBundleControl.NewBundleOverCases | src/main/java/io/rincl/resourcebundle/RinclResourceBundleControl.java:64-83 | the loop reads the resource exactly when the format is one of the suffixes and the resource opens; otherwise the JDK decides |
| LegacyBundleControl.NewBundle | src/main/java/io/rincl/resourcebundle/RinclResourceBundleControl.java:60-84 | the suffix loop computes `NewBundleOver` |
| LegacyBundleControl.LegacyNewBundleCases | src/main/java/io/rincl/resourcebundle/RinclResourceBundleControl.java:60-84 | other formats and missing resources go to the JDK; an XML resource gives the loader's bundle or its failure, a coding failure included |
| RinclResources.FindConfigurationValueImpl | rincl-resourcebundle/src/main/java/io/rincl/resourcebundle/ResourceBundleResources.java:97-117 | none exactly when the key is absent, an error exactly when the value is not a string, otherwise the string |
| RinclResources.FindObject | rincl-resourcebundle/src/main/java/io/rincl/resourcebundle/ResourceBundleResources.java:69-90 | an object exactly when the bundle has the key, and it is the bundle's value |
| RinclResources.ContextClass | rincl/src/main/java/io/rincl/ChildResourcesDecorator.java:40-43 | an empty store and a bundle store answer their own context class; a decorator answers the context class of the resources it decorates, never its parent |
| RinclResources.OptionalString | rincl/src/main/java/io/rincl/AbstractStringResources.java:152-165 | `getOptionalString(key, arguments)`: none exactly when nothing defines the key, a not-a-string error exactly when the nearest value is another object |
| RinclResources.OptionalStringFindsDefinition | rincl/src/main/java/io/rincl/AbstractStringResources.java:152-165 | a string lookup through stores and fallbacks is the nearest definition, formatted |
| RinclResources.OptionalObject | rincl/src/main/java/io/rincl/AbstractStringResources.java:88-91 | `getOptionalObject` is empty exactly when no store of the chain defines the key |
| RinclResources.OptionalObjectIsDefinition | rincl/src/main/java/io/rincl/AbstractStringResources.java:88-91 | `getOptionalObject` is the nearest definition |
| RinclResources.OptionalConverted | rincl/src/main/java/io/rincl/AbstractStringResources.java:97-127 | a typed lookup is empty exactly when the chain has no definition, and a first definition that is not a string fails with the not-a-string error |
| RinclResources.OptionalBoolean | rincl/src/main/java/io/rincl/AbstractStringResources.java:97-100 | `getOptionalBoolean` is empty exactly when the chain has no definition, and a non-string first definition is the not-a-string error |
| RinclResources.OptionalInt | rincl/src/main/java/io/rincl/AbstractStringResources.java:115-118 | `getOptionalInt` is empty exactly when the chain has no definition, and a non-string first definition is the not-a-string error |
| RinclResources.OptionalLong | rincl/src/main/java/io/rincl/AbstractStringResources.java:124-127 | `getOptionalLong` is empty exactly when the chain has no definition, and a non-string first definition is the not-a-string error |
| RinclResources.OptionalConvertedFindsDefinition | rincl/src/main/java/io/rincl/AbstractStringResources.java:97-127 | a typed lookup converts the nearest definition |
| RinclResources.TypedLookupsFindDefinition | rincl/src/main/java/io/rincl/AbstractStringResources.java:97-127 | boolean, int and long lookups: none when undefined, a not-a-string error for other objects, the converted nearest string |
| RinclResources.HasResource | rincl/src/main/java/io/rincl/Resources.java:45-48 | `hasResource` through parents and fallbacks: a resource it reports is defined |
| RinclResources.HasResourceIffDefinition | rincl/src/main/java/io/rincl/Resources.java:45-48 | a resource exists exactly when a lookup finds a definition |
| RinclResources.RequireConfiguration | rincl/src/main/java/io/rincl/Resources.java:96-99 | a present value is returned; an absent one is a missing-key error for that key |
| RinclResources.GetString | rincl/src/main/java/io/rincl/Resources.java:96-99 | `getString`: a missing key exactly when nothing defines the key, a string only when the definition is one |
| RinclResources.GetStringMissingIffNoResource | rincl/src/main/java/io/rincl/Resources.java:96-99 | `getString` reports a missing key exactly when no resource exists, and otherwise formats the nearest string |
| RinclResources.WithOptionalFallback | rincl/src/main/java/io/rincl/Resources.java:126-128 | these resources themselves without a fallback; with one, the context class is kept and object lookups ask these resources first |
| RinclResources.WithFallbackResources | rincl/src/main/java/io/rincl/Resources.java:137-139 | the decorator keeps the context class and has a resource exactly when these resources or the fallback have it |
| RinclResources.FallbackKeepsResources | rincl/src/main/java/io/rincl/Resources.java:126-139 | adding a fallback keeps the context class and the store's own definitions, consulting the fallback only for missing keys; no fallback leaves the store unchanged |
| RinclResources.FallbackAssociative | rincl/src/main/java/io/rincl/ChildResourcesDecorator.java:48-52 | left- and right-nested fallback chains answer every key alike |
| RinclResourcesFactory.GetResources | rincl/src/main/java/io/rincl/ResourcesFactory.java:71-73 | the factory's resources when it has some, otherwise empty resources of that class |
| RinclResourcesFactory.GetResourcesOf | rincl/src/main/java/io/rincl/ResourcesFactory.java:53-55 | for an object without resources, empty resources of its runtime class |
| RinclResourcesFactory.GetOptionalResourcesOf | rincl/src/main/java/io/rincl/ResourcesFactory.java:92-94 | the optional resources for an object are those for its runtime class: when present, `getResources` on that class answers them; when absent, it answers an empty store for that class |
| RinclResourcesFactory.ObjectIsItsClass | rincl/src/main/java/io/rincl/ResourcesFactory.java:92-94 | asking for an object is asking for its runtime class |
| RinclResourcesFactory.NoneGivesEmpty | rincl/src/main/java/io/rincl/ResourcesFactory.java:33 | `NONE` gives empty resources that hold no string and no resource |
| RinclResourcesFactory.NoneFactory | rincl/src/main/java/io/rincl/ResourcesFactory.java:33 | `NONE` answers no resources for every context class and locale |
| RinclBundleFactory.ResolvingClassesFor | rincl-resourcebundle/src/main/java/io/rincl/resourcebundle/ResourceBundleResourcesFactory.java:309 | the resolving classes of the configured, possibly fixed-context, strategy |
| RinclBundleFactory.ForFixedContext | rincl-resourcebundle/src/main/java/io/rincl/resourcebundle/ResourceBundleResourcesFactory.java:133-139 | explicit base names when some are given, else the class name; `DEFAULT` or `NO_ANCESTORS` by the flag; the fixed class |
| RinclBundleFactory.DefaultFactory | rincl-resourcebundle/src/main/java/io/rincl/resourcebundle/ResourceBundleResourcesFactory.java:175-177 | the no-argument factory has no parent factory, takes the context class name as its only base name, and uses the default resolving-class strategy |
| RinclBundleFactory.ForFixedContextDefaults | rincl-resourcebundle/src/main/java/io/rincl/resourcebundle/ResourceBundleResourcesFactory.java:61-63 | `forFixedContext(class, baseNames...)` uses the no-ancestors strategy fixed on the given class, has no parent factory, and takes the explicit base names, or the class name when none are given |
| RinclBundleFactory.GetOptionalResources | rincl-resourcebundle/src/main/java/io/rincl/resourcebundle/ResourceBundleResourcesFactory.java:306-320 | the forward loop plus the trailing parent-factory fallback computes `Result` |
| RinclBundleFactory.AsResourcesFactory | rincl-resourcebundle/src/main/java/io/rincl/resourcebundle/ResourceBundleResourcesFactory.java:41 | the factory viewed as a `ResourcesFactory` answers resources exactly when some resolving class has a bundle or the parent factory answers resources |
| RinclBundleFactory.Accumulated | rincl-resourcebundle/src/main/java/io/rincl/resourcebundle/ResourceBundleResourcesFactory.java:309-315 | the resources the forward loop accumulates report one of the visited classes as context class |
| RinclBundleFactory.Result | rincl-resourcebundle/src/main/java/io/rincl/resourcebundle/ResourceBundleResourcesFactory.java:306-320 | resources exactly when some resolving class has a bundle or the parent factory has resources, reporting a resolving class when a bundle was found |
| RinclBundleFactory.AccumulatedDefinition | rincl-resourcebundle/src/main/java/io/rincl/resourcebundle/ResourceBundleResourcesFactory.java:309-315 | the accumulated fallbacks find a key in the earliest resolving class whose bundle defines it |
| RinclBundleFactory.AccumulatedContextClass | rincl-resourcebundle/src/main/java/io/rincl/resourcebundle/ResourceBundleResourcesFactory.java:309-315 | nothing accumulates exactly when no class has a bundle; otherwise the result's context class is the first class with a bundle |
| RinclBundleFactory.AccumulatedNone | rincl-resourcebundle/src/main/java/io/rincl/resourcebundle/ResourceBundleResourcesFactory.java:309-315 | when no resolving class has a bundle, the loop builds no resources |
| RinclBundleFactory.AccumulatedFirst | rincl-resourcebundle/src/main/java/io/rincl/resourcebundle/ResourceBundleResourcesFactory.java:309-315 | the outermost store the loop builds has the context class of the first resolving class with a bundle |
| RinclBundleFactory.ResultDefinition | rincl-resourcebundle/src/main/java/io/rincl/resourcebundle/ResourceBundleResourcesFactory.java:306-320 | a key resolves to the earliest class's definition, and only otherwise to the parent factory's resources |
| RinclBundleFactory.ResultString | rincl-resourcebundle/src/main/java/io/rincl/resourcebundle/ResourceBundleResourcesFactory.java:306-320 | a string lookup in the factory's resources is that definition, formatted |
| RinclBundleFactory.FixedContextIgnoresContextClass | rincl-resourcebundle/src/main/java/io/rincl/resourcebundle/ResourceBundleResourcesFactory.java:133-139 | a fixed-context factory without a parent gives the same resources for every context class |
| BundleLoading.ToBundleName | rincl-resourcebundle/src/main/java/io/rincl/resourcebundle/RinclResourceBundleControl.java:140 | the base name for the root locale, else base name, `_`, locale |
| BundleLoading.ToResourceName | rincl-resourcebundle/src/main/java/io/rincl/resourcebundle/RinclResourceBundleControl.java:143 | every `.` becomes `/`, then `.` and the suffix follow |
| BundleLoading.ResourceNameSuffix | rincl-resourcebundle/src/main/java/io/rincl/resourcebundle/RinclResourceBundleControl.java:142-143 | the path part holds no `.`, so the suffix follows the last `.` |
| BundleLoading.DotFreeResourceName | rincl-resourcebundle/src/main/java/io/rincl/resourcebundle/RinclResourceBundleControl.java:143 | a dot-free bundle name keeps its form |
| BundleLoading.Fetch | rincl-resourcebundle/src/main/java/io/rincl/resourcebundle/RinclResourceBundleControl.java:144-147 | bytes exactly when the URL exists and its connection opens |
| BundleLoading.LoadFrom | rincl-resourcebundle/src/main/java/io/rincl/resourcebundle/RinclResourceBundleControl.java:144-155 | no bundle without a resource; a successful load of an existing resource gives a bundle |
| BundleLoading.AppendMissing | rincl-resourcebundle/src/main/java/io/rincl/resourcebundle/RinclResourceBundleControl.java:117-123 | the copy-and-append loop is the linked-set union of the two format lists |
| BundleLoading.FormatsExtendDefaults | rincl-resourcebundle/src/main/java/io/rincl/resourcebundle/RinclResourceBundleControl.java:115-124 | the JDK formats stay first, and each added format comes after them |
| RinclControl.Put | rincl-resourcebundle/src/main/java/io/rincl/resourcebundle/RinclResourceBundleControl.java:104 | `LinkedHashMap.put`: the format maps to the loader, other formats keep theirs, the key order keeps its prefix and gains the format |
| RinclControl.PutExtensions | rincl-resourcebundle/src/main/java/io/rincl/resourcebundle/RinclResourceBundleControl.java:103-105 | registering a loader adds exactly its extensions to the map's formats |
| RinclControl.RegisterAll | rincl-resourcebundle/src/main/java/io/rincl/resourcebundle/RinclResourceBundleControl.java:102-106 | registering the loaders adds exactly the extensions they claim |
| RinclControl.PutValid | rincl-resourcebundle/src/main/java/io/rincl/resourcebundle/RinclResourceBundleControl.java:104 | `LinkedHashMap.put` keeps the key order duplicate-free and aligned with the map |
| RinclControl.NewControl | rincl-resourcebundle/src/main/java/io/rincl/resourcebundle/RinclResourceBundleControl.java:96-108 | the nested loops of the constructor compute `Registered` |
| RinclControl.PutExtensionsValid | rincl-resourcebundle/src/main/java/io/rincl/resourcebundle/RinclResourceBundleControl.java:103-105 | registering a loader's extensions keeps the map well formed |
| RinclControl.PutExtensionsFormats | rincl-resourcebundle/src/main/java/io/rincl/resourcebundle/RinclResourceBundleControl.java:103-105 | new formats go last in order; re-registered ones keep their place |
| RinclControl.PutExtensionsLoader | rincl-resourcebundle/src/main/java/io/rincl/resourcebundle/RinclResourceBundleControl.java:103-105 | a claimed extension maps to the loader; every other format keeps its loader |
| RinclControl.Registered | rincl-resourcebundle/src/main/java/io/rincl/resourcebundle/RinclResourceBundleControl.java:96-108 | the constructor's map has a loader for `java.properties` and for each claimed extension, and for nothing else |
| RinclControl.RegisteredFormats | rincl-resourcebundle/src/main/java/io/rincl/resourcebundle/RinclResourceBundleControl.java:96-108 | `java.properties` first, then each claimed extension in first-claim order |
| RinclControl.RegisteredLoader | rincl-resourcebundle/src/main/java/io/rincl/resourcebundle/RinclResourceBundleControl.java:96-108 | a format is registered exactly when it is `java.properties` or claimed; its loader is the last claimant, else the UTF-8 loader |
| RinclControl.GetFormats | rincl-resourcebundle/src/main/java/io/rincl/resourcebundle/RinclResourceBundleControl.java:115-124 | the JDK formats, then the registered formats not among them |
| RinclControl.DefaultControlRegistry | rincl-resourcebundle/src/main/java/io/rincl/resourcebundle/RinclResourceBundleControl.java:74-78 | with the XML loader as the one service provider, the map is `java.properties` to UTF-8, then `properties.xml` to XML |
| RinclControl.DefaultControl | rincl-resourcebundle/src/main/java/io/rincl/resourcebundle/RinclResourceBundleControl.java:74-78 | `DEFAULT` registers exactly the Java properties format and the XML properties format |
| RinclControl.DefaultControlFormats | rincl-resourcebundle/src/main/java/io/rincl/resourcebundle/RinclResourceBundleControl.java:115-124 | its formats are `java.class`, `java.properties`, `properties.xml` |
| RinclControl.FormatsWithXml | rincl-resourcebundle/src/main/java/io/rincl/resourcebundle/RinclResourceBundleControl.java:115-124 | adding the two registered suffixes to the JDK formats gives class, properties, then XML properties |
| RinclControl.Suffix | rincl-resourcebundle/src/main/java/io/rincl/resourcebundle/RinclResourceBundleControl.java:142 | `java.properties` reads `.properties` files, and every other format is its own suffix |
| RinclControl.NewBundle | rincl-resourcebundle/src/main/java/io/rincl/resourcebundle/RinclResourceBundleControl.java:134-166 | an unregistered format goes to the JDK's control |
| RinclControl.NewBundleRegistered | rincl-resourcebundle/src/main/java/io/rincl/resourcebundle/RinclResourceBundleControl.java:136-166 | a registered format: a loaded bundle is returned; a missing resource, or a coding failure on Java properties, goes to the JDK; any other failure is thrown |
| RinclControl.JavaPropertiesNeverFailOnCoding | rincl-resourcebundle/src/main/java/io/rincl/resourcebundle/RinclResourceBundleControl.java:156-162 | unless a loader claims `java.properties`, its loader is UTF-8 and no coding failure of it reaches the caller |
| RinclControl.DefaultControlReadsXml | rincl-resourcebundle/src/test/java/io/rincl/resourcebundle/RinclResourceBundleControlTest.java:133-136 | the default control reads an XML properties resource with the XML loader |
| RinclControl.DefaultControlFallsBackToIso | rincl-resourcebundle/src/test/java/io/rincl/resourcebundle/RinclResourceBundleControlTest.java:42-45 | an ISO-8859-1 properties file the UTF-8 loader rejects is read by the JDK's control |
| LocaleSelections.Ordinal | rincl/src/main/java/io/rincl/LocaleSelection.java:31 | each category's slot lies within the array, at its place in `values()` |
| LocaleSelections.OrdinalInjective | rincl/src/main/java/io/rincl/LocaleSelection.java:31 | distinct categories use distinct slots |
| LocaleSelections.Select | rincl/src/main/java/io/rincl/LocaleSelection.java:39-41 | `setLocale(category, locale)` fills the category's slot and keeps every other slot |
| LocaleSelections.UnsetGivesDefaults | rincl/src/main/java/io/rincl/LocaleSelection.java:34-46 | a fresh store answers the default locale of every category |
| LocaleSelections.SelectThenLocale | rincl/src/main/java/io/rincl/LocaleSelection.java:34-41 | after setting a category it answers the new locale; every other category answers as before |
| LocaleSelections.LastSelectionWins | rincl/src/main/java/io/rincl/LocaleSelection.java:40 | of two writes to one category, the last wins |
| LocaleSelections.SelectEachLocale | src/main/java/io/rincl/LocaleSelectable.java:58-62 | after setting a list of categories, exactly those answer the locale |
| LocaleSelections.SelectAllLocale | src/main/java/io/rincl/LocaleSelectable.java:58-62 | after `setLocale(locale)` every category answers it |
| LocaleSelections.LocaleSelection.constructor | rincl/src/main/java/io/rincl/LocaleSelection.java:44-46 | one empty slot per category |
| LocaleSelections.LocaleSelection.GetLocale | rincl/src/main/java/io/rincl/LocaleSelection.java:34-36 | the slot's locale, or else the category's default |
| LocaleSelections.LocaleSelection.SetLocale | rincl/src/main/java/io/rincl/LocaleSelection.java:39-41 | exactly the category's slot is overwritten |
| LocaleSelections.LocaleSelection.SetAllLocales | src/main/java/io/rincl/LocaleSelectable.java:58-62 | the loop sets each category of `values()` in order |
| Scenarios.TestHierarchyWellFormed | rincl-resourcebundle/src/test/java/io/rincl/resourcebundle/ResolvingClassStrategyTest.java:36-40 | the test classes form a well-formed hierarchy |
| Scenarios.ImplParentClasses | rincl-resourcebundle/src/test/java/io/rincl/resourcebundle/ResolvingClassStrategyTest.java:38-39 | `Impl`'s superclass walk is `Impl`, `BaseImpl`, `AbstractImpl` |
| Scenarios.ImplInterfaceLevels | rincl-resourcebundle/src/test/java/io/rincl/resourcebundle/ResolvingClassStrategyTest.java:38-39 | the interface searches along it visit `SubInterface`, `Interface`, `Interface` |
| Scenarios.ImplLinkedSet | rincl-resourcebundle/src/test/java/io/rincl/resourcebundle/ResolvingClassStrategyTest.java:38-39 | the linked set drops the repeated `Interface` |
| Scenarios.DefaultResolvesImpl | rincl-resourcebundle/src/test/java/io/rincl/resourcebundle/ResolvingClassStrategyTest.java:36-40 | `DEFAULT` resolves `Impl` to `Impl`, `BaseImpl`, `AbstractImpl`, `SubInterface`, `Interface` |
| Scenarios.BaseImplParentClasses | rincl-resourcebundle/src/test/java/io/rincl/resourcebundle/ResourceBundleResourceI18ConcernTest.java:168-181 | `BaseImpl`'s superclass walk is `BaseImpl`, `AbstractImpl` |
| Scenarios.BaseImplInterfaceLevels | rincl-resourcebundle/src/test/java/io/rincl/resourcebundle/ResourceBundleResourceI18ConcernTest.java:168-181 | the interface searches along it visit `SubInterface`, `Interface`, `Interface` |
| Scenarios.BaseImplLinkedSet | rincl-resourcebundle/src/test/java/io/rincl/resourcebundle/ResourceBundleResourceI18ConcernTest.java:168-181 | the linked set drops the repeated `Interface` |
| Scenarios.DefaultResolvesBaseImpl | rincl-resourcebundle/src/test/java/io/rincl/resourcebundle/ResourceBundleResourceI18ConcernTest.java:168-181 | `DEFAULT` resolves `BaseImpl` to `BaseImpl`, `AbstractImpl`, `SubInterface`, `Interface` |
| Scenarios.TestBundleOf | rincl-resourcebundle/src/test/java/io/rincl/resourcebundle/ResourceBundleResourceI18ConcernTest.java:168-181 | each test class finds its own bundle under its name |
| Scenarios.BaseImplFirstDefinition | rincl-resourcebundle/src/test/java/io/rincl/resourcebundle/ResourceBundleResourceI18ConcernTest.java:172 | `interfaceToOverride` is first defined by `AbstractImpl` |
| Scenarios.BaseImplLacksImpl | rincl-resourcebundle/src/test/java/io/rincl/resourcebundle/ResourceBundleResourceI18ConcernTest.java:179 | no resolving class of `BaseImpl` defines `impl` |
| Scenarios.BaseImplOverride | rincl-resourcebundle/src/test/java/io/rincl/resourcebundle/ResourceBundleResourceI18ConcernTest.java:168-181 | the default factory's resources for `BaseImpl` give `interfaceToOverride-abstractImpl` (the superclass beats the declared `SubInterface`) and nothing for `impl` |

## Left out

- I/O: reading streams, the UTF-8 and XML property parsers (`Properties.load`,
  `loadFromXML`), BOM handling and `setUseCaches(false)` on reload. They are the
  `Environment`'s `load` function and the `Content` bytes.
- `MessageFormat.format` and its locale. They are the `Formatter` parameter.
- The JDK's `ResourceBundle.getBundle`: the candidate-locale search, parent bundles and
  caching. It is the `BundleSource` table.
- `ServiceLoader` discovery of loaders: `DefaultControl` fixes the XML loader as the one provider.
- `Double`, `Path` and `URI` getters: floating-point and URI parsing are not modelled.
- `src` `AbstractResources` is not part of this model. The first-generation
  `getOptionalLong`, `getOptionalUri` and `getOptionalResource` (`src` `EmptyResources` lines
  67-100) are therefore not modelled, and `getParentResources` is the datatype's field.
- The confound-library classes are not part of this model: `AbstractStringConfiguration`,
  `BaseChildConfigurationDecorator`, `EmptyConfiguration`, `normalizeKey`, `hasConfigurationValue`
  and the typed getters they supply. Assumptions made for them:
  - `normalizeKey` and `dereferenceString` are the identity (`dereferenceString` is in
    `src` `BaseResources.java` lines 103-105).
  - `hasConfigurationValue` searches the store, its parent and its fallbacks, as
    `Resources.hasResource` documents.
  - A `super` typed getter converts the store's own string.
  - The decorator's typed and object getters try the wrapped store, then the fallback, like
    its `findString`.
  - The decorator's `getOptionalString(key, arguments)` is taken to be its
    `findString(key, arguments)` (`ChildResourcesDecorator.java` lines 48-52): the wrapped
    store first, then the fallback, with the same arguments. `Resources` declares the method
    (line 117) and no implementation of it for the decorator is visible.
- `RinclResources`: the second-generation `ResourceBundleResources` constructor calls
  `super(contextClass)`, and no such constructor of `AbstractStringResources` is visible.
  The model keeps the parent slot of `AbstractStringResources` (the `parent` field of
  `BundleResources`), and every lookup searches it. The second-generation factory always
  builds the store with no parent (`Accumulated`), because it chains bundles with
  `withFallbackResources` instead.
- The first-generation `getOptionalString` calls `getDereferencedString`, which calls
  `getStringImpl`. The subclass defines `getOptionalStringImpl`. The model takes it to be
  that method.
- The `rincl-resourcebundle` `ResolvingClassStrategy` (with `forFixedContext`) is not part of
  this model. Both factories use the `src` strategy. A fixed-context strategy is
  modelled as resolving the fixed class in place of the context class.
- The first-generation factory is given the same base name strategies as the second. Its
  own `BaseNameStrategy` is not part of this model.
- The Java `assert` on loader registration (`RinclResourceBundleControl.java` lines
  137-138) is not modelled. The model's map is registered correctly by construction
  (`RegisteredLoader`).
- `getFilenameExtensions()` returns a `Set`. It is modelled as a sequence in iteration order.
- Factory constructor overloads that only supply defaults are modelled by the full
  constructor plus `DefaultFactory`. The first generation's private singleton constructor
  and `INSTANCE` are not modelled.
- `Rincl` and `Rincled`, the i18n concerns, Wicket and the providers: global lookup
  and JVM default-locale mutation, outside the core.
- `LocaleSelections.LocaleSelection.SetLocale`: the code never touches the JVM default
  locales and the model passes them in as a `defaults` function, so "defaults unchanged"
  holds trivially and is not stated as a separate property.
- `null` arguments (`NullPointerException`) are not modelled. Java's Unicode digits in
  `Integer.valueOf` are not modelled either: only ASCII digits are.
- `RinclControl.DefaultControlReadsXml`, `RinclControl.DefaultControlFallsBackToIso`: stated for any
  root-locale, dot-free base name such as the tests' `io/rincl/resourcebundle/...`, not for the literal test names only.

## Findings

| source | as written | input that shows it | evidently intended | confidence | as-written member | corrected member |
|---|---|---|---|---|---|---|
| src/main/java/io/rincl/BaseResources.java:55 | a store without the key asks its parent with `getOptionalString(key)`, dropping the format arguments, so `getString` (`Resources.java` lines 161-164) and the factory's resources inherit the drop | child store without `foo` whose parent maps `foo` to `foo {0}`; `getOptionalString("foo", "bar")` gives `foo {0}` | pass the arguments on, giving `foo bar`, as `BaseResourcesTest.java` lines 45-46 expect; `GetStringCorrected` and `FactoryStringLookupCorrected` carry the correction on | high, not executed | LegacyResources.ArgumentsDroppedForParent | LegacyResources.OptionalStringFindsDefinition |
| src/main/java/io/rincl/EmptyResources.java:62-65 | `hasResource` answers `false` whatever the parent holds | `EmptyResources` whose parent maps `k` to `v`: `hasResource("k")` is false while `getOptionalString("k")` gives `v` | search the parent, as the class's and `Resources.hasResource`'s documentation say | medium, not executed | LegacyResources.EmptyResourcesDeniesParentResource | LegacyResources.HasResourceIffDefinition |
