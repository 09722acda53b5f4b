/** Which classes are searched for the resources of a context class, and in what order
    (`ResolvingClassStrategy`). */
module ResolvingClassStrategy {
  import opened Wrappers
  import opened TypeGraph
  import opened LinkedSet

  /** The two strategies the library provides: `DEFAULT` and `NO_ANCESTORS`. */
  datatype Strategy = Default | NoAncestors

  /** The context class followed by its superclasses, nearest first, stopping before `Object`. */
  function ParentClasses(h: Hierarchy, c: Class): (r: seq<Class>)
    requires WellFormed(h)
    ensures |r| > 0 && r[0] == c
    decreases c.rank
  {
    match Superclass(h, c)
    case Some(s) => if s != h.objectClass then [c] + ParentClasses(h, s) else [c]
    case None => [c]
  }

  /** The walk goes strictly upwards, so it never repeats a class. */
  lemma {:induction false} ParentClassesDistinct(h: Hierarchy, c: Class)
    requires WellFormed(h)
    ensures forall x | x in ParentClasses(h, c) :: x.rank <= c.rank
    ensures Distinct(ParentClasses(h, c))
    decreases c.rank
  {
    var r := ParentClasses(h, c);
    if |r| > 1 {
      var s := Superclass(h, c).value;
      ParentClassesDistinct(h, s);
      assert r == [c] + ParentClasses(h, s);
      forall i, j | 0 <= i < j < |r| ensures r[i] != r[j] {
        if i == 0 {
          assert r[j] in ParentClasses(h, s);
        } else {
          assert r[i] == ParentClasses(h, s)[i - 1] && r[j] == ParentClasses(h, s)[j - 1];
        }
      }
    }
  }

  /** Each entry after the first is the superclass of the one before, and is not `Object`. */
  lemma {:induction false} ParentClassesLinked(h: Hierarchy, c: Class, i: nat)
    requires WellFormed(h) && 0 < i < |ParentClasses(h, c)|
    ensures Superclass(h, ParentClasses(h, c)[i - 1]) == Some(ParentClasses(h, c)[i])
    ensures ParentClasses(h, c)[i] != h.objectClass
    decreases c.rank
  {
    var s := Superclass(h, c).value;
    if i > 1 {
      ParentClassesLinked(h, s, i - 1);
    }
  }

  /** The walk stops at a class whose superclass is null or `Object`. */
  lemma {:induction false} ParentClassesEnd(h: Hierarchy, c: Class)
    requires WellFormed(h)
    ensures var last := ParentClasses(h, c)[|ParentClasses(h, c)| - 1];
      Superclass(h, last).None? || Superclass(h, last).value == h.objectClass
    decreases c.rank
  {
    var r := ParentClasses(h, c);
    if |r| > 1 {
      var s := Superclass(h, c).value;
      ParentClassesEnd(h, s);
      assert r == [c] + ParentClasses(h, s);
      assert r[|r| - 1] == ParentClasses(h, s)[|ParentClasses(h, s)| - 1];
    }
  }

  /** The number of visits the interface queue makes when it starts from `x` alone. */
  function Weight(h: Hierarchy, x: Class): nat
    requires WellFormed(h)
    decreases x.rank + 1, 0
  {
    1 + WeightBelow(h, Interfaces(h, x), x.rank)
  }

  function WeightBelow(h: Hierarchy, q: seq<Class>, bound: nat): nat
    requires WellFormed(h)
    requires forall e | e in q :: e.rank < bound
    decreases bound, |q|
  {
    if q == [] then 0 else Weight(h, q[0]) + WeightBelow(h, q[1..], bound)
  }

  /** The number of visits the interface queue makes until it is empty. */
  function QueueWeight(h: Hierarchy, q: seq<Class>): nat
    requires WellFormed(h)
  {
    if q == [] then 0 else Weight(h, q[0]) + QueueWeight(h, q[1..])
  }

  lemma {:induction false} WeightBelowIsQueueWeight(h: Hierarchy, q: seq<Class>, bound: nat)
    requires WellFormed(h)
    requires forall e | e in q :: e.rank < bound
    ensures WeightBelow(h, q, bound) == QueueWeight(h, q)
    decreases |q|
  {
    if q != [] {
      WeightBelowIsQueueWeight(h, q[1..], bound);
    }
  }

  lemma {:induction false} QueueWeightAppend(h: Hierarchy, a: seq<Class>, b: seq<Class>)
    requires WellFormed(h)
    ensures QueueWeight(h, a + b) == QueueWeight(h, a) + QueueWeight(h, b)
    decreases |a|
  {
    if a != [] {
      calc {
        QueueWeight(h, a + b);
        { assert (a + b)[0] == a[0] && (a + b)[1..] == a[1..] + b; }
        Weight(h, a[0]) + QueueWeight(h, a[1..] + b);
        { QueueWeightAppend(h, a[1..], b); }
        Weight(h, a[0]) + QueueWeight(h, a[1..]) + QueueWeight(h, b);
      }
    } else {
      assert a + b == b;
    }
  }

  /** Taking the head off the queue and appending its interfaces leaves less to visit. */
  lemma DequeueLighter(h: Hierarchy, q: seq<Class>)
    requires WellFormed(h) && q != []
    ensures QueueWeight(h, q[1..] + Interfaces(h, q[0])) < QueueWeight(h, q)
  {
    QueueWeightAppend(h, q[1..], Interfaces(h, q[0]));
    WeightBelowIsQueueWeight(h, Interfaces(h, q[0]), q[0].rank);
  }

  /** The interfaces the queue-draining loop visits, in visiting order: the head is taken
      off the queue, visited, and the interfaces it declares are appended to the queue.
      An interface reachable along several paths is visited once per path. */
  function BreadthFirst(h: Hierarchy, queue: seq<Class>): (r: seq<Class>)
    requires WellFormed(h)
    ensures (forall e | e in queue :: e in h.interfaceTypes) ==> forall x | x in r :: x in h.interfaceTypes
    decreases QueueWeight(h, queue)
  {
    if queue == [] then []
    else
      DequeueLighter(h, queue);
      [queue[0]] + BreadthFirst(h, queue[1..] + Interfaces(h, queue[0]))
  }

  /** The interfaces declared by the members of `q`, in order: the next level of the search. */
  function Children(h: Hierarchy, q: seq<Class>): seq<Class>
    requires WellFormed(h)
  {
    if q == [] then [] else Interfaces(h, q[0]) + Children(h, q[1..])
  }

  /** The search is breadth-first: the whole queue is visited, in queue order, before any
      interface found by visiting it. */
  lemma {:induction false} BreadthFirstLayers(h: Hierarchy, q: seq<Class>, t: seq<Class>)
    requires WellFormed(h)
    ensures BreadthFirst(h, q + t) == q + BreadthFirst(h, t + Children(h, q))
    decreases |q|
  {
    if q == [] {
      assert q + t == t && t + Children(h, q) == t;
    } else {
      var x, rest := q[0], q[1..];
      var t' := t + Interfaces(h, x);
      calc {
        BreadthFirst(h, q + t);
        { assert (q + t)[0] == x && (q + t)[1..] + Interfaces(h, x) == rest + t'; }
        [x] + BreadthFirst(h, rest + t');
        { BreadthFirstLayers(h, rest, t'); }
        [x] + (rest + BreadthFirst(h, t' + Children(h, rest)));
        { assert t' + Children(h, rest) == t + Children(h, q); }
        [x] + (rest + BreadthFirst(h, t + Children(h, q)));
        { assert q == [x] + rest; }
        q + BreadthFirst(h, t + Children(h, q));
      }
    }
  }

  /** Directly declared interfaces are visited first, in declaration order. */
  lemma DeclaredInterfacesFirst(h: Hierarchy, c: Class)
    requires WellFormed(h)
    ensures Interfaces(h, c) <= BreadthFirst(h, Interfaces(h, c))
  {
    var q := Interfaces(h, c);
    BreadthFirstLayers(h, q, []);
    assert q + [] == q;
  }

  /** One breadth-first search per class of `chain`, concatenated in chain order. */
  function InterfaceLevels(h: Hierarchy, chain: seq<Class>): seq<Class>
    requires WellFormed(h)
    decreases |chain|
  {
    if chain == [] then []
    else InterfaceLevels(h, chain[..|chain| - 1]) + BreadthFirst(h, Interfaces(h, chain[|chain| - 1]))
  }

  /** `ResolvingClassStrategy.DEFAULT`: the class and its superclasses up to but excluding
      `Object`, then for each of those classes in turn the interfaces it reaches
      breadth-first, each class appearing once, where it first turned up. */
  function ResolvingClasses(h: Hierarchy, c: Class): (r: seq<Class>)
    requires WellFormed(h)
    ensures |ParentClasses(h, c)| <= |r| && r[..|ParentClasses(h, c)|] == ParentClasses(h, c)
    ensures Distinct(r) && r[0] == c
    ensures forall x :: x in r <==> x in ParentClasses(h, c) || x in InterfaceLevels(h, ParentClasses(h, c))
  {
    var chain := ParentClasses(h, c);
    ParentClassesDistinct(h, c);
    AddAll(chain, InterfaceLevels(h, chain))
  }

  /** `resolveClasses` of the two strategies; `NO_ANCESTORS` yields the class alone. */
  function Resolve(h: Hierarchy, s: Strategy, c: Class): (r: seq<Class>)
    requires WellFormed(h)
    ensures |r| > 0 && r[0] == c && Distinct(r)
    ensures s.NoAncestors? ==> r == [c]
  {
    match s
    case Default => ResolvingClasses(h, c)
    case NoAncestors => [c]
  }

  /** The body of `DEFAULT`: the superclass walk, the linked-set copy of its result, and
      one interface queue drained per class of the walk. */
  method DefaultResolvingClasses(h: Hierarchy, contextClass: Class) returns (resolvingClasses: seq<Class>)
    requires WellFormed(h)
    ensures resolvingClasses == ResolvingClasses(h, contextClass)
  {
    var parentClasses := CollectParentClasses(h, contextClass);
    resolvingClasses := AddAll([], parentClasses);
    assert resolvingClasses == parentClasses by {
      ParentClassesDistinct(h, contextClass);
      AddAllDistinct([], parentClasses);
      assert [] + parentClasses == parentClasses;
    }
    resolvingClasses := AddInterfaceLevels(h, parentClasses, resolvingClasses);
  }

  /** `resolvingClasses(contextClass)` of the chosen strategy. */
  method ResolvingClassesFor(h: Hierarchy, s: Strategy, contextClass: Class) returns (resolvingClasses: seq<Class>)
    requires WellFormed(h)
    ensures resolvingClasses == Resolve(h, s, contextClass)
  {
    match s
    case Default =>
      resolvingClasses := DefaultResolvingClasses(h, contextClass);
    case NoAncestors =>
      resolvingClasses := [contextClass];
  }

  /** The do-while walk: add the class, move to its superclass, stop at null or `Object`. */
  method CollectParentClasses(h: Hierarchy, contextClass: Class) returns (parentClasses: seq<Class>)
    requires WellFormed(h)
    ensures parentClasses == ParentClasses(h, contextClass)
  {
    parentClasses := [];
    var current := contextClass;
    var more := true;
    while more
      invariant more ==> parentClasses + ParentClasses(h, current) == ParentClasses(h, contextClass)
      invariant !more ==> parentClasses == ParentClasses(h, contextClass)
      decreases if more then current.rank + 1 else 0
    {
      ghost var walked := parentClasses;
      parentClasses := parentClasses + [current];
      match Superclass(h, current)
      case Some(s) =>
        if s != h.objectClass {
          assert ParentClasses(h, current) == [current] + ParentClasses(h, s);
          assert parentClasses + ParentClasses(h, s) == walked + ([current] + ParentClasses(h, s));
          current := s;
        } else {
          assert ParentClasses(h, current) == [current];
          more := false;
        }
      case None =>
        assert ParentClasses(h, current) == [current];
        more := false;
    }
  }

  /** The loop over the parent classes: each one's declared interfaces seed the queue,
      which is then drained into the set. */
  method AddInterfaceLevels(h: Hierarchy, parentClasses: seq<Class>, start: seq<Class>) returns (resolvingClasses: seq<Class>)
    requires WellFormed(h)
    ensures resolvingClasses == AddAll(start, InterfaceLevels(h, parentClasses))
  {
    resolvingClasses := start;
    for i := 0 to |parentClasses|
      invariant resolvingClasses == AddAll(start, InterfaceLevels(h, parentClasses[..i]))
    {
      var parentClass := parentClasses[i];
      ghost var before := resolvingClasses;
      resolvingClasses := DrainInterfaceQueue(h, resolvingClasses, Interfaces(h, parentClass));
      assert parentClasses[..i + 1][..i] == parentClasses[..i];
      AddAllAppend(start, InterfaceLevels(h, parentClasses[..i]), BreadthFirst(h, Interfaces(h, parentClass)));
    }
    assert parentClasses[..|parentClasses|] == parentClasses;
  }

  /** `while (!queue.isEmpty())`: take the head, add it to the set, enqueue its interfaces. */
  method DrainInterfaceQueue(h: Hierarchy, start: seq<Class>, initialQueue: seq<Class>) returns (resolvingClasses: seq<Class>)
    requires WellFormed(h)
    ensures resolvingClasses == AddAll(start, BreadthFirst(h, initialQueue))
  {
    resolvingClasses := start;
    var queue := initialQueue;
    while queue != []
      invariant AddAll(resolvingClasses, BreadthFirst(h, queue)) == AddAll(start, BreadthFirst(h, initialQueue))
      decreases QueueWeight(h, queue)
    {
      DequeueLighter(h, queue);
      var interfaceClass := queue[0];
      queue := queue[1..];
      resolvingClasses := Add(resolvingClasses, interfaceClass);
      queue := queue + Interfaces(h, interfaceClass);
    }
  }

  /** The levels of a concatenated chain are the levels of its parts, concatenated. */
  lemma {:induction false} InterfaceLevelsAppend(h: Hierarchy, a: seq<Class>, b: seq<Class>)
    requires WellFormed(h)
    ensures InterfaceLevels(h, a + b) == InterfaceLevels(h, a) + InterfaceLevels(h, b)
    decreases |b|
  {
    if b == [] {
      assert a + b == a;
    } else {
      var init := b[..|b| - 1];
      assert (a + b)[..|a + b| - 1] == a + init;
      assert (a + b)[|a + b| - 1] == b[|b| - 1];
      InterfaceLevelsAppend(h, a, init);
    }
  }

  /** Everything the interface searches visit is an interface. */
  lemma {:induction false} InterfaceLevelsAreInterfaces(h: Hierarchy, chain: seq<Class>, x: Class)
    requires WellFormed(h) && x in InterfaceLevels(h, chain)
    ensures x in h.interfaceTypes
    decreases |chain|
  {
    if x !in InterfaceLevels(h, chain[..|chain| - 1]) {
      var last := chain[|chain| - 1];
      assert x in BreadthFirst(h, Interfaces(h, last));
    } else {
      InterfaceLevelsAreInterfaces(h, chain[..|chain| - 1], x);
    }
  }

  /** After the context class come its superclasses, which are not interfaces, and after
      them only interfaces. */
  lemma ClassesBeforeInterfaces(h: Hierarchy, c: Class)
    requires WellFormed(h)
    ensures forall j | 1 <= j < |ResolvingClasses(h, c)| ::
      ResolvingClasses(h, c)[j] in h.interfaceTypes <==> j >= |ParentClasses(h, c)|
  {
    var r := ResolvingClasses(h, c);
    var chain := ParentClasses(h, c);
    forall j | 1 <= j < |r| ensures r[j] in h.interfaceTypes <==> j >= |chain| {
      if j < |chain| {
        assert r[j] == chain[j];
        ParentClassesLinked(h, c, j);
      } else {
        assert r[j] !in chain by {
          forall i | 0 <= i < |chain| ensures chain[i] != r[j] {
            assert r[i] == chain[i];
          }
        }
        InterfaceLevelsAreInterfaces(h, chain, r[j]);
      }
    }
  }

  lemma LevelsPrecede(h: Hierarchy, chain: seq<Class>, k: nat, x: Class, y: Class)
    requires WellFormed(h) && k <= |chain|
    requires x in chain || x in InterfaceLevels(h, chain[..k])
    requires y in InterfaceLevels(h, chain)
    requires y !in chain && y !in InterfaceLevels(h, chain[..k])
    ensures x in AddAll(chain, InterfaceLevels(h, chain)) && y in AddAll(chain, InterfaceLevels(h, chain))
    ensures IndexOf(AddAll(chain, InterfaceLevels(h, chain)), x) < IndexOf(AddAll(chain, InterfaceLevels(h, chain)), y)
  {
    assert chain == chain[..k] + chain[k..];
    InterfaceLevelsAppend(h, chain[..k], chain[k..]);
    AddAllPrecedes(chain, InterfaceLevels(h, chain[..k]), InterfaceLevels(h, chain[k..]), x, y);
  }

  /** An interface reached from a more derived class comes before one reached only from
      less derived classes, and every class of the chain comes before every interface. */
  lemma LevelPriority(h: Hierarchy, c: Class, k: nat, x: Class, y: Class)
    requires WellFormed(h) && k <= |ParentClasses(h, c)|
    requires x in ParentClasses(h, c) || x in InterfaceLevels(h, ParentClasses(h, c)[..k])
    requires y in InterfaceLevels(h, ParentClasses(h, c))
    requires y !in ParentClasses(h, c) && y !in InterfaceLevels(h, ParentClasses(h, c)[..k])
    ensures x in ResolvingClasses(h, c) && y in ResolvingClasses(h, c)
    ensures IndexOf(ResolvingClasses(h, c), x) < IndexOf(ResolvingClasses(h, c), y)
  {
    LevelsPrecede(h, ParentClasses(h, c), k, x, y);
  }

  /** With no interfaces anywhere along the chain, the result is the chain itself. */
  lemma {:induction false} NoInterfacesNoLevels(h: Hierarchy, chain: seq<Class>)
    requires WellFormed(h)
    requires forall i | 0 <= i < |chain| :: Interfaces(h, chain[i]) == []
    ensures InterfaceLevels(h, chain) == []
    decreases |chain|
  {
    if chain != [] {
      NoInterfacesNoLevels(h, chain[..|chain| - 1]);
    }
  }

  lemma OnlySuperclassesWithoutInterfaces(h: Hierarchy, c: Class)
    requires WellFormed(h)
    requires forall i | 0 <= i < |ParentClasses(h, c)| :: Interfaces(h, ParentClasses(h, c)[i]) == []
    ensures ResolvingClasses(h, c) == ParentClasses(h, c)
  {
    NoInterfacesNoLevels(h, ParentClasses(h, c));
  }
}
