/** The candidate resource bundle base names tried for one resolving class
    (`BaseNameStrategy`). */
module BaseNameStrategy {
  import opened TypeGraph

  datatype Strategy =
    | ClassBaseName                              // CLASS_BASE_NAME_STRATEGY
    | BaseNamesThenClassName(names: seq<string>) // forBaseNamesThenClassName(names)
    | ClassNameThenBaseNames(names: seq<string>) // forClassNameThenBaseNames(names)
    | ExplicitBaseNames(names: seq<string>)      // forBaseNames(names)

  /** `baseNames(referenceClass)`, in the order they are tried. */
  function BaseNames(s: Strategy, referenceClass: Class): (r: seq<string>)
    ensures s.ClassBaseName? ==> r == [referenceClass.name]
    ensures s.BaseNamesThenClassName? ==>
      |r| == |s.names| + 1 && r[..|s.names|] == s.names && r[|s.names|] == referenceClass.name
    ensures s.ClassNameThenBaseNames? ==>
      |r| == |s.names| + 1 && r[0] == referenceClass.name && r[1..] == s.names
    ensures s.ExplicitBaseNames? ==> r == s.names
  {
    match s
    case ClassBaseName => [referenceClass.name]
    case BaseNamesThenClassName(names) => names + [referenceClass.name]
    case ClassNameThenBaseNames(names) => [referenceClass.name] + names
    case ExplicitBaseNames(names) => names
  }

  /** Explicit base names do not depend on the class they are asked for. */
  lemma ExplicitNamesIgnoreClass(names: seq<string>, c: Class, d: Class)
    ensures BaseNames(ExplicitBaseNames(names), c) == BaseNames(ExplicitBaseNames(names), d)
  {
  }

  /** With no explicit names, the class-name-first strategy is the class base name strategy. */
  lemma ClassNameOnly(c: Class)
    ensures BaseNames(ClassNameThenBaseNames([]), c) == BaseNames(ClassBaseName, c)
  {
  }

  /** Every configured name is tried, and the class's own name is tried exactly when the
      strategy includes it or it is one of the configured names. */
  lemma CandidateMembership(s: Strategy, c: Class, n: string)
    ensures !s.ClassBaseName? && n in s.names ==> n in BaseNames(s, c)
    ensures c.name in BaseNames(s, c) <==> !s.ExplicitBaseNames? || c.name in s.names
  {
    var r := BaseNames(s, c);
    if s.BaseNamesThenClassName? && n in s.names {
      assert n in r[..|s.names|];
    }
    if s.ClassNameThenBaseNames? && n in s.names {
      assert n in r[1..];
    }
  }
}
