/** `RinclResourceBundleControl` of the `rincl-resourcebundle` module: resource bundle
    loaders registered by format, UTF-8 Java properties by default, and the JDK control as
    the fallback for everything the loaders do not handle. */
module RinclControl {
  import opened Wrappers
  import opened LinkedSet
  import opened ResourceBundles
  import opened BundleLoading

  /** The `LinkedHashMap` of loaders by format: its keys in insertion order and its mapping. */
  datatype Control = Control(formats: seq<string>, loaders: map<string, Loader>)

  predicate Valid(c: Control) {
    Distinct(c.formats) && (forall f | f in c.formats :: f in c.loaders) && (forall f | f in c.loaders :: f in c.formats)
  }

  /** `Map.put` on a `LinkedHashMap`: a new key goes last, an existing key keeps its place
      and takes the new value. */
  function Put(c: Control, format: string, loader: Loader): (r: Control)
    ensures format in r.loaders && r.loaders[format] == loader
    ensures forall f | f in c.loaders && f != format :: f in r.loaders && r.loaders[f] == c.loaders[f]
    ensures forall f :: f in r.loaders <==> f in c.loaders || f == format
    ensures |c.formats| <= |r.formats| && r.formats[..|c.formats|] == c.formats && format in r.formats
  {
    Control(Add(c.formats, format), c.loaders[format := loader])
  }

  lemma PutValid(c: Control, format: string, loader: Loader)
    requires Valid(c)
    ensures Valid(Put(c, format, loader))
  {
  }

  /** The map before any given loader is registered: UTF-8 properties for `java.properties`. */
  const Initial: Control := Control([JavaPropertiesFormat], map[JavaPropertiesFormat := UtfPropertiesLoader])

  /** Registering one loader under each of `extensions`, in order. */
  function PutExtensions(c: Control, loader: Loader, extensions: seq<string>): (r: Control)
    ensures forall f :: f in r.loaders <==> f in c.loaders || f in extensions
  {
    if extensions == [] then c
    else Put(PutExtensions(c, loader, extensions[..|extensions| - 1]), extensions[|extensions| - 1], loader)
  }

  /** Registering each loader in turn under all its filename extensions. */
  function RegisterAll(c: Control, loaders: seq<Loader>): (r: Control)
    ensures forall f :: f in r.loaders <==> f in c.loaders || f in Extensions(loaders)
  {
    if loaders == [] then c
    else
      var last := loaders[|loaders| - 1];
      PutExtensions(RegisterAll(c, loaders[..|loaders| - 1]), last, last.filenameExtensions)
  }

  /** The control the constructor builds from the given loaders: a loader for
      `java.properties` and for every extension some loader claims, and for nothing else. */
  function Registered(loaders: seq<Loader>): (c: Control)
    ensures forall f :: f in c.loaders <==> f == JavaPropertiesFormat || f in Extensions(loaders)
  {
    RegisterAll(Initial, loaders)
  }

  /** The constructor: the nested `forEach` over the loaders and their extensions. */
  method NewControl(resourceBundleLoaders: seq<Loader>) returns (c: Control)
    ensures c == Registered(resourceBundleLoaders)
  {
    c := Initial;
    for i := 0 to |resourceBundleLoaders|
      invariant c == RegisterAll(Initial, resourceBundleLoaders[..i])
    {
      var resourceBundleLoader := resourceBundleLoaders[i];
      var extensions := resourceBundleLoader.filenameExtensions;
      ghost var before := c;
      for j := 0 to |extensions|
        invariant c == PutExtensions(before, resourceBundleLoader, extensions[..j])
      {
        assert extensions[..j + 1][..j] == extensions[..j];
        c := Put(c, extensions[j], resourceBundleLoader);
      }
      assert extensions[..|extensions|] == extensions;
      assert resourceBundleLoaders[..i + 1][..i] == resourceBundleLoaders[..i];
    }
    assert resourceBundleLoaders[..|resourceBundleLoaders|] == resourceBundleLoaders;
  }

  /** `DEFAULT`, with the library's own XML properties loader as the one service provider. */
  function DefaultControl(): (c: Control)
    ensures forall f :: f in c.loaders <==> f == JavaPropertiesFormat || f == "properties.xml"
  {
    assert [XmlPropertiesLoader][..0] == [];
    assert Extensions([XmlPropertiesLoader]) == ["properties.xml"];
    Registered([XmlPropertiesLoader])
  }

  /** All the extensions the loaders claim, in registration order. */
  function Extensions(loaders: seq<Loader>): seq<string> {
    if loaders == [] then []
    else Extensions(loaders[..|loaders| - 1]) + loaders[|loaders| - 1].filenameExtensions
  }

  /** The last of the loaders to claim `format`. */
  function LastClaimant(loaders: seq<Loader>, format: string): Option<Loader> {
    if loaders == [] then None
    else if format in loaders[|loaders| - 1].filenameExtensions then Some(loaders[|loaders| - 1])
    else LastClaimant(loaders[..|loaders| - 1], format)
  }

  lemma {:induction false} PutExtensionsValid(c: Control, loader: Loader, extensions: seq<string>)
    requires Valid(c)
    ensures Valid(PutExtensions(c, loader, extensions))
  {
    if extensions != [] {
      PutExtensionsValid(c, loader, extensions[..|extensions| - 1]);
      PutValid(PutExtensions(c, loader, extensions[..|extensions| - 1]), extensions[|extensions| - 1], loader);
    }
  }

  lemma {:induction false} PutExtensionsFormats(c: Control, loader: Loader, extensions: seq<string>)
    ensures PutExtensions(c, loader, extensions).formats == AddAll(c.formats, extensions)
  {
    if extensions != [] {
      var init := extensions[..|extensions| - 1];
      var last := extensions[|extensions| - 1];
      assert init + [last] == extensions;
      var prev := PutExtensions(c, loader, init);
      assert PutExtensions(c, loader, extensions).formats == Add(prev.formats, last);
      PutExtensionsFormats(c, loader, init);
      AddAllSnoc(c.formats, init, last);
    }
  }

  lemma {:induction false} PutExtensionsLoader(c: Control, loader: Loader, extensions: seq<string>, f: string)
    ensures f in PutExtensions(c, loader, extensions).loaders <==> f in c.loaders || f in extensions
    ensures f in extensions ==> PutExtensions(c, loader, extensions).loaders[f] == loader
    ensures f in c.loaders && f !in extensions ==> PutExtensions(c, loader, extensions).loaders[f] == c.loaders[f]
  {
    if extensions != [] {
      var init := extensions[..|extensions| - 1];
      PutExtensionsLoader(c, loader, init, f);
      assert init + [extensions[|extensions| - 1]] == extensions;
    }
  }

  /** The constructor's map: `java.properties` first, then each claimed extension in the
      order first claimed; each format belongs to the last loader claiming it, or to the
      UTF-8 properties loader when none claims `java.properties`. */
  lemma {:induction false} RegisteredFormats(loaders: seq<Loader>)
    ensures Valid(Registered(loaders))
    ensures Registered(loaders).formats == AddAll([JavaPropertiesFormat], Extensions(loaders))
    ensures Registered(loaders).formats[0] == JavaPropertiesFormat
    decreases |loaders|
  {
    if loaders != [] {
      var init := loaders[..|loaders| - 1];
      var last := loaders[|loaders| - 1];
      RegisteredFormats(init);
      PutExtensionsFormats(Registered(init), last, last.filenameExtensions);
      PutExtensionsValid(Registered(init), last, last.filenameExtensions);
      AddAllAppend([JavaPropertiesFormat], Extensions(init), last.filenameExtensions);
    }
  }

  lemma {:induction false} RegisteredLoader(loaders: seq<Loader>, f: string)
    ensures f in Registered(loaders).loaders <==> f == JavaPropertiesFormat || LastClaimant(loaders, f).Some?
    ensures f in Registered(loaders).loaders ==>
      Registered(loaders).loaders[f] == LastClaimant(loaders, f).GetOr(UtfPropertiesLoader)
    decreases |loaders|
  {
    if loaders != [] {
      var init := loaders[..|loaders| - 1];
      var last := loaders[|loaders| - 1];
      RegisteredLoader(init, f);
      PutExtensionsLoader(Registered(init), last, last.filenameExtensions, f);
    }
  }

  /** `getFormats(baseName)`: the JDK's formats, then the registered ones not among them. */
  method GetFormats(c: Control, baseName: string) returns (formats: seq<string>)
    ensures formats == AddAll(DefaultFormats, c.formats)
  {
    formats := AppendMissing(DefaultFormats, c.formats);
  }

  /** The default control offers the JDK formats followed by the XML properties format. */
  lemma DefaultControlRegistry()
    ensures DefaultControl() == Control([JavaPropertiesFormat, "properties.xml"],
      map[JavaPropertiesFormat := UtfPropertiesLoader, "properties.xml" := XmlPropertiesLoader])
  {
    var one := [XmlPropertiesLoader];
    assert one[..0] == [];
    assert RegisterAll(Initial, one) == PutExtensions(Initial, XmlPropertiesLoader, ["properties.xml"]);
    assert ["properties.xml"][..0] == [];
    assert PutExtensions(Initial, XmlPropertiesLoader, ["properties.xml"]) == Put(Initial, "properties.xml", XmlPropertiesLoader);
  }

  /** The JDK formats merged with `java.properties` and `properties.xml`. */
  lemma FormatsWithXml()
    ensures AddAll(DefaultFormats, [JavaPropertiesFormat, "properties.xml"]) == ["java.class", "java.properties", "properties.xml"]
  {
    var xml := "properties.xml";
    assert [JavaPropertiesFormat, xml] == [] + [JavaPropertiesFormat] + [xml];
    AddAllSnoc(DefaultFormats, [], JavaPropertiesFormat);
    assert Add(DefaultFormats, JavaPropertiesFormat) == DefaultFormats;
    AddAllSnoc(DefaultFormats, [JavaPropertiesFormat], xml);
  }

  lemma DefaultControlFormats()
    ensures AddAll(DefaultFormats, DefaultControl().formats) == ["java.class", "java.properties", "properties.xml"]
  {
    DefaultControlRegistry();
    FormatsWithXml();
  }


  /** The file suffix looked for: `properties` for the Java properties format, otherwise the
      format itself. */
  function Suffix(format: string): (suffix: string)
    ensures format != JavaPropertiesFormat ==> suffix == format
    ensures suffix == PropertiesExtension <==> format == JavaPropertiesFormat || format == PropertiesExtension
  {
    if format == JavaPropertiesFormat then PropertiesExtension else format
  }

  /** `newBundle(baseName, locale, format, classLoader, reload)` */
  function NewBundle(c: Control, env: Environment, baseName: string, locale: Locale, format: string): (r: Result<Option<Bundle>, LoadError>)
    ensures format !in c.loaders ==> r == env.superNewBundle(baseName, locale, format)
  {
    var fallback := env.superNewBundle(baseName, locale, format);
    if format !in c.loaders then fallback
    else
      var isJavaProperties := JavaPropertiesFormat == format;
      var resourceName := ToResourceName(ToBundleName(baseName, locale), Suffix(format));
      match LoadFrom(env, c.loaders[format], resourceName)
      case Ok(Some(bundle)) => Ok(Some(bundle))
      case Ok(None) => fallback
      case Err(CharacterCoding) => if isJavaProperties then fallback else Err(CharacterCoding)
      case Err(OtherIo) => Err(OtherIo)
  }

  /** A registered loader reads the resource named after the bundle and the suffix; a
      missing resource, or a character coding failure while reading Java properties, leaves
      the bundle to the JDK's control, and any other failure reaches the caller. */
  lemma NewBundleRegistered(c: Control, env: Environment, baseName: string, locale: Locale, format: string)
    requires format in c.loaders
    ensures var resourceName := ToResourceName(ToBundleName(baseName, locale), Suffix(format));
      var loaded := LoadFrom(env, c.loaders[format], resourceName);
      var r := NewBundle(c, env, baseName, locale, format);
      (loaded.Ok? && loaded.value.Some? ==> r == loaded)
      && (loaded == Ok(None) ==> r == env.superNewBundle(baseName, locale, format))
      && (loaded.Err? && (loaded.error == OtherIo || format != JavaPropertiesFormat) ==> r == loaded)
      && (loaded == Err(CharacterCoding) && format == JavaPropertiesFormat ==> r == env.superNewBundle(baseName, locale, format))
  {
  }

  /** Whatever loaders are registered, a Java properties file that is not valid UTF-8 is
      read by the JDK's control, and no character coding failure of the UTF-8 loader reaches
      the caller. */
  lemma JavaPropertiesNeverFailOnCoding(loaders: seq<Loader>, env: Environment, baseName: string, locale: Locale)
    requires LastClaimant(loaders, JavaPropertiesFormat).None?
    requires env.superNewBundle(baseName, locale, JavaPropertiesFormat) != Err(CharacterCoding)
    ensures NewBundle(Registered(loaders), env, baseName, locale, JavaPropertiesFormat) != Err(CharacterCoding)
    ensures JavaPropertiesFormat in Registered(loaders).loaders
      && Registered(loaders).loaders[JavaPropertiesFormat] == UtfPropertiesLoader
  {
    RegisteredLoader(loaders, JavaPropertiesFormat);
    NewBundleRegistered(Registered(loaders), env, baseName, locale, JavaPropertiesFormat);
  }

  /** `testNewBundleXmlPropertiesUtf8NoBom`: for a root-locale bundle whose base name is a
      resource path (no dots, as in the test's `io/rincl/resourcebundle/test-utf-8-no-bom`),
      the default control reads the XML properties resource through the XML loader. */
  lemma DefaultControlReadsXml(env: Environment, baseName: string, bytes: seq<bv8>, bundle: Bundle)
    requires forall i | 0 <= i < |baseName| :: baseName[i] != '.'
    requires baseName + "." + "properties.xml" in env.resources
    requires env.resources[baseName + "." + "properties.xml"] == Content(bytes)
    requires env.load(XmlPropertiesLoader, bytes) == Ok(bundle)
    ensures NewBundle(DefaultControl(), env, baseName, "", "properties.xml") == Ok(Some(bundle))
  {
    DotFreeResourceName(baseName, "properties.xml");
    DefaultControlRegistry();
    NewBundleRegistered(DefaultControl(), env, baseName, "", "properties.xml");
  }

  /** `testNewBundlePropertiesIso88591`: a root-locale `.properties` resource the UTF-8
      loader rejects as malformed is read by the JDK's control instead. */
  lemma DefaultControlFallsBackToIso(env: Environment, baseName: string, bytes: seq<bv8>, bundle: Bundle)
    requires forall i | 0 <= i < |baseName| :: baseName[i] != '.'
    requires baseName + "." + PropertiesExtension in env.resources
    requires env.resources[baseName + "." + PropertiesExtension] == Content(bytes)
    requires env.load(UtfPropertiesLoader, bytes) == Err(CharacterCoding)
    requires env.superNewBundle(baseName, "", JavaPropertiesFormat) == Ok(Some(bundle))
    ensures NewBundle(DefaultControl(), env, baseName, "", JavaPropertiesFormat) == Ok(Some(bundle))
  {
    DotFreeResourceName(baseName, PropertiesExtension);
    DefaultControlRegistry();
    NewBundleRegistered(DefaultControl(), env, baseName, "", JavaPropertiesFormat);
  }
}
