/** The class hierarchy the library's tests use, and what resolving it yields. */
module Scenarios {
  import opened Wrappers
  import opened TypeGraph
  import opened LinkedSet
  import opened ResolvingClassStrategy
  import opened ResourceBundles
  import BN = BaseNameStrategy
  import RBF = RinclBundleFactory
  import RR = RinclResources

  const ObjectClass := Class("java.lang.Object", 0)
  const TestInterface := Class("Interface", 1)
  const SubInterface := Class("SubInterface", 2)
  const AbstractImpl := Class("AbstractImpl", 3)
  const BaseImpl := Class("BaseImpl", 4)
  const Impl := Class("Impl", 5)

  /** `interface SubInterface extends Interface`, `abstract class AbstractImpl implements
      Interface`, `class BaseImpl extends AbstractImpl implements SubInterface`,
      `class Impl extends BaseImpl`. */
  const TestHierarchy := Hierarchy(
    map[AbstractImpl := ObjectClass, BaseImpl := AbstractImpl, Impl := BaseImpl],
    map[SubInterface := [TestInterface], AbstractImpl := [TestInterface], BaseImpl := [SubInterface]],
    {TestInterface, SubInterface},
    {},
    ObjectClass)

  lemma TestHierarchyWellFormed()
    ensures WellFormed(TestHierarchy)
  {
    var h := TestHierarchy;
    forall c, i | c in h.declaredInterfaces && i in h.declaredInterfaces[c]
      ensures i.rank < c.rank && i in h.interfaceTypes
    {
      assert c == SubInterface || c == AbstractImpl || c == BaseImpl;
    }
  }

  lemma ImplParentClasses()
    ensures WellFormed(TestHierarchy)
    ensures ParentClasses(TestHierarchy, Impl) == [Impl, BaseImpl, AbstractImpl]
  {
    TestHierarchyWellFormed();
    var h := TestHierarchy;
    assert Superclass(h, AbstractImpl) == Some(ObjectClass);
    assert ParentClasses(h, AbstractImpl) == [AbstractImpl];
    assert Superclass(h, BaseImpl) == Some(AbstractImpl);
    assert ParentClasses(h, BaseImpl) == [BaseImpl, AbstractImpl];
    assert Superclass(h, Impl) == Some(BaseImpl);
  }

  lemma ImplInterfaceLevels()
    ensures WellFormed(TestHierarchy)
    ensures InterfaceLevels(TestHierarchy, [Impl, BaseImpl, AbstractImpl]) == [SubInterface, TestInterface, TestInterface]
  {
    TestHierarchyWellFormed();
    var h := TestHierarchy;
    var chain := [Impl, BaseImpl, AbstractImpl];
    assert Interfaces(h, TestInterface) == [];
    assert BreadthFirst(h, [TestInterface]) == [TestInterface] by {
      assert [TestInterface][1..] + [] == [];
    }
    assert Interfaces(h, SubInterface) == [TestInterface];
    assert BreadthFirst(h, [SubInterface]) == [SubInterface, TestInterface] by {
      assert [SubInterface][1..] + [TestInterface] == [TestInterface];
    }
    assert chain[..2] == [Impl, BaseImpl] && chain[..2][..1] == [Impl] && [Impl][..0] == [];
    assert InterfaceLevels(h, [Impl]) == [];
    assert InterfaceLevels(h, [Impl, BaseImpl]) == [SubInterface, TestInterface];
  }

  lemma ImplLinkedSet()
    ensures AddAll([Impl, BaseImpl, AbstractImpl], [SubInterface, TestInterface, TestInterface])
         == [Impl, BaseImpl, AbstractImpl, SubInterface, TestInterface]
  {
    var s1 := [Impl, BaseImpl, AbstractImpl, SubInterface];
    var s2 := s1 + [TestInterface];
    calc {
      AddAll([Impl, BaseImpl, AbstractImpl], [SubInterface, TestInterface, TestInterface]);
      { assert Add([Impl, BaseImpl, AbstractImpl], SubInterface) == s1; }
      AddAll(s1, [TestInterface, TestInterface]);
      { assert Add(s1, TestInterface) == s2; }
      AddAll(s2, [TestInterface]);
      { assert TestInterface in s2; }
      AddAll(s2, []);
    }
  }

  /** The default strategy resolves `Impl` to itself, its two superclasses, and then the
      interfaces: `SubInterface` (declared by `BaseImpl`) before `Interface`. */
  lemma DefaultResolvesImpl()
    ensures WellFormed(TestHierarchy)
    ensures ResolvingClasses(TestHierarchy, Impl) == [Impl, BaseImpl, AbstractImpl, SubInterface, TestInterface]
  {
    ImplParentClasses();
    ImplInterfaceLevels();
    ImplLinkedSet();
  }

  lemma BaseImplParentClasses()
    ensures WellFormed(TestHierarchy)
    ensures ParentClasses(TestHierarchy, BaseImpl) == [BaseImpl, AbstractImpl]
  {
    TestHierarchyWellFormed();
    var h := TestHierarchy;
    assert Superclass(h, AbstractImpl) == Some(ObjectClass);
    assert ParentClasses(h, AbstractImpl) == [AbstractImpl];
    assert Superclass(h, BaseImpl) == Some(AbstractImpl);
  }

  lemma BaseImplInterfaceLevels()
    ensures WellFormed(TestHierarchy)
    ensures InterfaceLevels(TestHierarchy, [BaseImpl, AbstractImpl]) == [SubInterface, TestInterface, TestInterface]
  {
    TestHierarchyWellFormed();
    var h := TestHierarchy;
    assert Interfaces(h, TestInterface) == [];
    assert BreadthFirst(h, [TestInterface]) == [TestInterface] by {
      assert [TestInterface][1..] + [] == [];
    }
    assert Interfaces(h, SubInterface) == [TestInterface];
    assert BreadthFirst(h, [SubInterface]) == [SubInterface, TestInterface] by {
      assert [SubInterface][1..] + [TestInterface] == [TestInterface];
    }
    var chain := [BaseImpl, AbstractImpl];
    assert chain[..1] == [BaseImpl] && [BaseImpl][..0] == [];
    assert InterfaceLevels(h, [BaseImpl]) == [SubInterface, TestInterface];
  }

  lemma BaseImplLinkedSet()
    ensures AddAll([BaseImpl, AbstractImpl], [SubInterface, TestInterface, TestInterface])
         == [BaseImpl, AbstractImpl, SubInterface, TestInterface]
  {
    var s1 := [BaseImpl, AbstractImpl, SubInterface];
    var s2 := s1 + [TestInterface];
    calc {
      AddAll([BaseImpl, AbstractImpl], [SubInterface, TestInterface, TestInterface]);
      { assert Add([BaseImpl, AbstractImpl], SubInterface) == s1; }
      AddAll(s1, [TestInterface, TestInterface]);
      { assert Add(s1, TestInterface) == s2; }
      AddAll(s2, [TestInterface]);
      { assert TestInterface in s2; }
      AddAll(s2, []);
    }
  }

  /** `BaseImpl` resolves to itself, `AbstractImpl`, and then `SubInterface` before `Interface`. */
  lemma DefaultResolvesBaseImpl()
    ensures WellFormed(TestHierarchy)
    ensures ResolvingClasses(TestHierarchy, BaseImpl) == [BaseImpl, AbstractImpl, SubInterface, TestInterface]
  {
    BaseImplParentClasses();
    BaseImplInterfaceLevels();
    BaseImplLinkedSet();
  }

  /** The root-locale bundles of the test classes, as far as the key `interfaceToOverride`
      and the key `baseImpl` go. */
  const TestBundles := BundleSource(map[
    ("Interface", "") := map["interfaceToOverride" := Str("interfaceToOverride-interface")],
    ("SubInterface", "") := map["interfaceToOverride" := Str("interfaceToOverride-subInterface")],
    ("AbstractImpl", "") := map["interfaceToOverride" := Str("interfaceToOverride-abstractImpl")],
    ("BaseImpl", "") := map["baseImpl" := Str("baseImpl-value")]])

  /** Each test class finds its own bundle, under its name as base name. */
  lemma TestBundleOf(c: Class)
    requires c in {BaseImpl, AbstractImpl, SubInterface, TestInterface}
    ensures ResourceBundleFor(TestHierarchy, BN.ClassBaseName, TestBundles, c, "") == Some(TestBundles.bundles[(c.name, "")])
  {
  }

  /** `BaseImpl`'s own bundle lacks `interfaceToOverride`; `AbstractImpl`'s has it. */
  lemma BaseImplFirstDefinition()
    ensures FirstDefinition(TestHierarchy, BN.ClassBaseName, TestBundles, [BaseImpl, AbstractImpl, SubInterface, TestInterface], "", "interfaceToOverride")
      == Some(Str("interfaceToOverride-abstractImpl"))
  {
    var classes := [BaseImpl, AbstractImpl, SubInterface, TestInterface];
    TestBundleOf(BaseImpl);
    TestBundleOf(AbstractImpl);
    assert TestBundles.bundles[("BaseImpl", "")] == map["baseImpl" := Str("baseImpl-value")];
    assert classes[1..] == [AbstractImpl, SubInterface, TestInterface];
  }

  /** No test class defines `impl`. */
  lemma BaseImplLacksImpl()
    ensures FirstDefinition(TestHierarchy, BN.ClassBaseName, TestBundles, [BaseImpl, AbstractImpl, SubInterface, TestInterface], "", "impl").None?
  {
    var classes := [BaseImpl, AbstractImpl, SubInterface, TestInterface];
    FirstDefinitionIsEarliest(TestHierarchy, BN.ClassBaseName, TestBundles, classes, "", "impl");
    forall i | 0 <= i < |classes| ensures !Defines(TestHierarchy, BN.ClassBaseName, TestBundles, classes[i], "", "impl") {
      TestBundleOf(classes[i]);
    }
  }

  /** `testDefaultGetResourcesForBaseImpl`: with the default factory, `BaseImpl` takes
      `interfaceToOverride` from `AbstractImpl`, its superclass, and not from `SubInterface`,
      the interface it declares itself; and no test class defines `impl` for it. */
  lemma BaseImplOverride()
    ensures WellFormed(TestHierarchy)
    ensures RR.DefinitionIn(RBF.Result(TestHierarchy, RBF.DefaultFactory(), TestBundles, BaseImpl, ""), "interfaceToOverride")
      == Some(Str("interfaceToOverride-abstractImpl"))
    ensures RR.DefinitionIn(RBF.Result(TestHierarchy, RBF.DefaultFactory(), TestBundles, BaseImpl, ""), "impl").None?
  {
    DefaultResolvesBaseImpl();
    var h := TestHierarchy;
    var f := RBF.DefaultFactory();
    assert RBF.ResolvingClasses(h, f.resolvingClassStrategy, BaseImpl) == [BaseImpl, AbstractImpl, SubInterface, TestInterface];
    RBF.ResultDefinition(h, f, TestBundles, BaseImpl, "", "interfaceToOverride");
    RBF.ResultDefinition(h, f, TestBundles, BaseImpl, "", "impl");
    BaseImplFirstDefinition();
    BaseImplLacksImpl();
  }
}
