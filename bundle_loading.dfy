/** What the two `RinclResourceBundleControl`s share: resource bundle loaders, the names
    `ResourceBundle.Control` derives for bundles and resources, and the class loader's
    resources as a lookup table. */
module BundleLoading {
  import opened Wrappers
  import opened LinkedSet
  import opened ResourceBundles

  /** A `ResourceBundleLoader`, known by a name and the filename extensions it claims. */
  datatype Loader = Loader(name: string, filenameExtensions: seq<string>)

  /** The `IOException`s a load can throw: a `CharacterCodingException` or any other. */
  datatype LoadError = CharacterCoding | OtherIo

  /** What opening a resource URL gives: `openConnection()` returning null, or the stream's bytes. */
  datatype Connection = NoConnection | Content(bytes: seq<bv8>)

  /** The world `newBundle` reads: the class loader's resources (a name missing from the map
      is a null URL), what each loader's `load` makes of some bytes, and what the JDK's own
      `ResourceBundle.Control.newBundle` returns for a base name, locale and format. */
  datatype Environment = Environment(
    resources: map<string, Connection>,
    load: (Loader, seq<bv8>) -> Result<Bundle, LoadError>,
    superNewBundle: (string, Locale, string) -> Result<Option<Bundle>, LoadError>)

  /** `ResourceBundle.Control.FORMAT_DEFAULT`, what `super.getFormats` returns. */
  const DefaultFormats: seq<string> := ["java.class", "java.properties"]

  /** `JAVA_PROPERTIES_FORMAT`, the first of `FORMAT_PROPERTIES`. */
  const JavaPropertiesFormat: string := "java.properties"

  /** `PropertiesFiles.FILENAME_EXTENSION` */
  const PropertiesExtension: string := "properties"

  /** `UtfPropertiesResourceBundleLoader.INSTANCE` */
  const UtfPropertiesLoader: Loader := Loader("UtfPropertiesResourceBundleLoader", [PropertiesExtension])

  /** `XmlPropertiesResourceBundleLoader`, claiming its extension `properties.xml` */
  const XmlPropertiesLoader: Loader := Loader("XmlPropertiesResourceBundleLoader", ["properties.xml"])

  /** `toBundleName(baseName, locale)`: the base name, followed by `_` and the locale unless it
      is the root locale. */
  function ToBundleName(baseName: string, locale: Locale): (r: string)
    ensures locale == "" ==> r == baseName
    ensures locale != "" ==>
      |r| == |baseName| + 1 + |locale| && r[..|baseName|] == baseName && r[|baseName|] == '_' && r[|baseName| + 1..] == locale
  {
    if locale == "" then baseName else baseName + "_" + locale
  }

  function SlashForDot(ch: char): char {
    if ch == '.' then '/' else ch
  }

  function ReplaceDots(s: string): (r: string)
    ensures |r| == |s|
    ensures forall i | 0 <= i < |s| :: r[i] == SlashForDot(s[i])
  {
    if s == [] then [] else [SlashForDot(s[0])] + ReplaceDots(s[1..])
  }

  /** `toResourceName(bundleName, suffix)`: the bundle name with every `.` turned into `/`,
      then `.` and the suffix. */
  function ToResourceName(bundleName: string, suffix: string): (r: string)
    ensures |r| == |bundleName| + 1 + |suffix|
    ensures forall i | 0 <= i < |bundleName| :: r[i] == SlashForDot(bundleName[i])
    ensures r[|bundleName|] == '.' && r[|bundleName| + 1..] == suffix
  {
    ReplaceDots(bundleName) + "." + suffix
  }

  /** The path part of a resource name holds no `.`, so the name's last `.` is the one that
      introduces the suffix. */
  lemma {:induction false} ResourceNameSuffix(bundleName: string, suffix: string)
    ensures var r := ToResourceName(bundleName, suffix);
      (forall i | 0 <= i < |bundleName| :: r[i] != '.') && r[|bundleName|] == '.' && r[|r| - |suffix|..] == suffix
  {
    var r := ToResourceName(bundleName, suffix);
    forall i | 0 <= i < |bundleName| ensures r[i] != '.' {
      assert r[i] == SlashForDot(bundleName[i]);
    }
  }

  /** A bundle name without dots, such as a class loader resource path, keeps its form. */
  lemma DotFreeResourceName(bundleName: string, suffix: string)
    requires forall i | 0 <= i < |bundleName| :: bundleName[i] != '.'
    ensures ToResourceName(bundleName, suffix) == bundleName + "." + suffix
  {
    assert ReplaceDots(bundleName) == bundleName;
  }

  /** The bytes behind a resource name, when the URL exists and its connection opens. */
  function Fetch(env: Environment, resourceName: string): (r: Option<seq<bv8>>)
    ensures r.Some? <==> resourceName in env.resources && env.resources[resourceName].Content?
  {
    if resourceName in env.resources && env.resources[resourceName].Content? then Some(env.resources[resourceName].bytes) else None
  }

  /** The bundle a loader reads from a resource: nothing when there is no such resource,
      otherwise the loader's result. */
  function LoadFrom(env: Environment, loader: Loader, resourceName: string): (r: Result<Option<Bundle>, LoadError>)
    ensures Fetch(env, resourceName).None? ==> r == Ok(None)
    ensures Fetch(env, resourceName).Some? ==> r.Ok? ==> r.value.Some?
  {
    match Fetch(env, resourceName)
    case None => Ok(None)
    case Some(bytes) =>
      match env.load(loader, bytes)
      case Ok(bundle) => Ok(Some(bundle))
      case Err(e) => Err(e)
  }

  /** The shape both `getFormats` share: the defaults copied into a list, then every further
      format appended unless the list already holds it. */
  method AppendMissing(formats: seq<string>, additional: seq<string>) returns (result: seq<string>)
    ensures result == AddAll(formats, additional)
  {
    result := formats;
    for i := 0 to |additional|
      invariant AddAll(result, additional[i..]) == AddAll(formats, additional)
    {
      assert additional[i..][0] == additional[i] && additional[i..][1..] == additional[i + 1..];
      if additional[i] !in result {
        result := result + [additional[i]];
      }
    }
  }

  /** Hence the default formats come first, in their order, and each further format follows
      all of them. */
  lemma FormatsExtendDefaults(additional: seq<string>, custom: string)
    requires custom in additional && custom !in DefaultFormats
    ensures |DefaultFormats| <= |AddAll(DefaultFormats, additional)|
    ensures AddAll(DefaultFormats, additional)[..|DefaultFormats|] == DefaultFormats
    ensures custom in AddAll(DefaultFormats, additional)
    ensures IndexOf(AddAll(DefaultFormats, additional), custom) >= |DefaultFormats|
  {
  }
}
