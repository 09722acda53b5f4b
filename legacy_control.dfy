/** The first generation's `RinclResourceBundleControl`: a `ResourceBundle.Control` that adds
    XML properties files, read by the XML loader, to the JDK's formats. */
module LegacyBundleControl {
  import opened Wrappers
  import opened LinkedSet
  import opened ResourceBundles
  import opened BundleLoading

  /** The one loader this control consults. */
  const LegacyLoader: Loader := XmlPropertiesLoader

  /** `getFormats(baseName)`: the JDK's formats followed by the loader's suffixes it lacks. */
  method GetFormats(baseName: string) returns (formats: seq<string>)
    ensures formats == AddAll(DefaultFormats, LegacyLoader.filenameExtensions)
  {
    formats := AppendMissing(DefaultFormats, LegacyLoader.filenameExtensions);
  }

  /** So the control offers exactly the class format, the properties format and the XML format. */
  lemma LegacyFormats()
    ensures AddAll(DefaultFormats, LegacyLoader.filenameExtensions) == ["java.class", "java.properties", "properties.xml"]
  {
    assert AddAll(Add(DefaultFormats, "properties.xml"), []) == ["java.class", "java.properties", "properties.xml"];
  }

  /** The resource a format names for a bundle: the format itself is the suffix. */
  function ResourceNameFor(baseName: string, locale: Locale, format: string): string {
    ToResourceName(ToBundleName(baseName, locale), format)
  }

  /** What the loop over the loader's suffixes decides: the first suffix that equals the
      format and whose resource exists and opens gives the loader's result, failures
      included; when none does, the JDK's own `newBundle` decides. So the loader is only
      consulted for a format among its suffixes whose resource opens. */
  function NewBundleOver(env: Environment, loader: Loader, suffixes: seq<string>, baseName: string, locale: Locale, format: string): (r: Result<Option<Bundle>, LoadError>)
    ensures r != env.superNewBundle(baseName, locale, format) ==>
      format in suffixes && Fetch(env, ResourceNameFor(baseName, locale, format)).Some?
  {
    if suffixes == [] then env.superNewBundle(baseName, locale, format)
    else if suffixes[0] == format && Fetch(env, ResourceNameFor(baseName, locale, format)).Some? then
      LoadFrom(env, loader, ResourceNameFor(baseName, locale, format))
    else NewBundleOver(env, loader, suffixes[1..], baseName, locale, format)
  }

  /** Since every suffix the loop acts on equals the format, the order of the suffixes does not
      matter: the loader reads the resource exactly when the format is one of its suffixes and
      the resource opens. */
  lemma {:induction false} NewBundleOverCases(env: Environment, loader: Loader, suffixes: seq<string>, baseName: string, locale: Locale, format: string)
    ensures var name := ResourceNameFor(baseName, locale, format);
      NewBundleOver(env, loader, suffixes, baseName, locale, format)
      == if format in suffixes && Fetch(env, name).Some? then LoadFrom(env, loader, name)
         else env.superNewBundle(baseName, locale, format)
  {
    if suffixes != [] {
      NewBundleOverCases(env, loader, suffixes[1..], baseName, locale, format);
      assert format in suffixes <==> suffixes[0] == format || format in suffixes[1..];
    }
  }

  /** `newBundle(baseName, locale, format, classLoader, reload)` */
  method NewBundle(env: Environment, baseName: string, locale: Locale, format: string) returns (r: Result<Option<Bundle>, LoadError>)
    ensures r == NewBundleOver(env, LegacyLoader, LegacyLoader.filenameExtensions, baseName, locale, format)
  {
    var suffixes := LegacyLoader.filenameExtensions;
    for i := 0 to |suffixes|
      invariant NewBundleOver(env, LegacyLoader, suffixes[i..], baseName, locale, format)
        == NewBundleOver(env, LegacyLoader, suffixes, baseName, locale, format)
    {
      assert suffixes[i..][0] == suffixes[i] && suffixes[i..][1..] == suffixes[i + 1..];
      if suffixes[i] == format {
        var resourceName := ToResourceName(ToBundleName(baseName, locale), format);
        if resourceName in env.resources && env.resources[resourceName].Content? {
          match env.load(LegacyLoader, env.resources[resourceName].bytes)
          case Ok(bundle) => return Ok(Some(bundle));
          case Err(e) => return Err(e);
        }
      }
    }
    assert suffixes[|suffixes|..] == [];
    r := env.superNewBundle(baseName, locale, format);
  }

  /** Unlike its successor, this control hands a character coding failure of the XML loader
      to the caller, and leaves every other format to the JDK. */
  lemma LegacyNewBundleCases(env: Environment, baseName: string, locale: Locale, format: string)
    ensures var r := NewBundleOver(env, LegacyLoader, LegacyLoader.filenameExtensions, baseName, locale, format);
      var name := ResourceNameFor(baseName, locale, format);
      (format != "properties.xml" || Fetch(env, name).None? ==> r == env.superNewBundle(baseName, locale, format))
      && (format == "properties.xml" && Fetch(env, name).Some? ==>
            r == (match env.load(LegacyLoader, Fetch(env, name).value)
                  case Ok(bundle) => Ok(Some(bundle))
                  case Err(e) => Err(e)))
  {
    NewBundleOverCases(env, LegacyLoader, LegacyLoader.filenameExtensions, baseName, locale, format);
  }
}
