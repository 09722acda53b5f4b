/** The part of the JVM type system the resolution algorithms consult: the direct superclass
    of a class, the interfaces a type declares directly, which types are interfaces, and
    which classes have no class loader. */
module TypeGraph {
  import opened Wrappers

  /** A class or interface, identified by its binary name (`Class.getName()`).
      `rank` is the type's position in a topological numbering of the hierarchy: every
      supertype has a smaller rank than its subtypes. Every finite acyclic hierarchy has
      such a numbering; the model uses it to show that walking up the hierarchy ends. */
  datatype Class = Class(name: string, rank: nat)

  datatype Hierarchy = Hierarchy(
    /** `getSuperclass()`; a class missing here has a null superclass (interfaces, `Object`) */
    superclasses: map<Class, Class>,
    /** `getInterfaces()`: the directly declared interfaces, in declaration order */
    declaredInterfaces: map<Class, seq<Class>>,
    /** the types for which `isInterface()` holds */
    interfaceTypes: set<Class>,
    /** the classes whose `getClassLoader()` is null (loaded by the bootstrap loader) */
    loaderless: set<Class>,
    /** `java.lang.Object` */
    objectClass: Class)

  /** The hierarchy the JVM guarantees: supertypes rank lower than their subtypes, a
      superclass is never an interface, an interface has no superclass, everything a type
      declares as an interface is one, and `Object` is the root. */
  ghost predicate WellFormed(h: Hierarchy) {
    && (forall c | c in h.superclasses :: h.superclasses[c].rank < c.rank && h.superclasses[c] !in h.interfaceTypes)
    && (forall c, i | c in h.declaredInterfaces && i in h.declaredInterfaces[c] :: i.rank < c.rank && i in h.interfaceTypes)
    && (forall c | c in h.interfaceTypes :: c !in h.superclasses)
    && h.objectClass !in h.superclasses
    && h.objectClass !in h.interfaceTypes
  }

  /** `Class.getSuperclass()` */
  function Superclass(h: Hierarchy, c: Class): (r: Option<Class>)
    requires WellFormed(h)
    ensures r.Some? ==> r.value.rank < c.rank && r.value !in h.interfaceTypes
    ensures c in h.interfaceTypes || c == h.objectClass ==> r.None?
  {
    if c in h.superclasses then Some(h.superclasses[c]) else None
  }

  /** `Class.getInterfaces()` */
  function Interfaces(h: Hierarchy, c: Class): (r: seq<Class>)
    requires WellFormed(h)
    ensures forall i | i in r :: i.rank < c.rank && i in h.interfaceTypes
  {
    if c in h.declaredInterfaces then h.declaredInterfaces[c] else []
  }

  /** Whether `Class.getClassLoader()` is non-null. */
  predicate HasClassLoader(h: Hierarchy, c: Class) {
    c !in h.loaderless
  }
}
