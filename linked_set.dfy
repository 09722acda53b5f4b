/** An insertion-ordered set (`java.util.LinkedHashSet`) represented by the sequence of its
    elements in insertion order. */
module LinkedSet {

  predicate Distinct<T(==,!new)>(s: seq<T>) {
    forall i, j | 0 <= i < j < |s| :: s[i] != s[j]
  }

  /** `LinkedHashSet.add`: an element already present keeps its position. */
  function Add<T(==,!new)>(s: seq<T>, x: T): (r: seq<T>)
    ensures Distinct(s) ==> Distinct(r)
    ensures x in r && |s| <= |r| && r[..|s|] == s
    ensures forall y :: y in r <==> y in s || y == x
  {
    if x in s then s else s + [x]
  }

  /** Adds every element of `xs` in order (`Collections.addAll`, `new LinkedHashSet<>(xs)`). */
  function AddAll<T(==,!new)>(s: seq<T>, xs: seq<T>): (r: seq<T>)
    ensures Distinct(s) ==> Distinct(r)
    ensures |s| <= |r| && r[..|s|] == s
    ensures forall y :: y in r <==> y in s || y in xs
    decreases |xs|
  {
    if xs == [] then s
    else
      var r := AddAll(Add(s, xs[0]), xs[1..]);
      assert r[..|s|] == r[..|Add(s, xs[0])|][..|s|];
      r
  }

  /** Adding one more element at the end is one more `add`. */
  lemma AddAllSnoc<T(!new)>(s: seq<T>, xs: seq<T>, x: T)
    ensures AddAll(s, xs + [x]) == Add(AddAll(s, xs), x)
  {
    AddAllAppend(s, xs, [x]);
    assert [x][0] == x && [x][1..] == [];
    assert AddAll(AddAll(s, xs), [x]) == AddAll(Add(AddAll(s, xs), x), []);
  }

  /** Adding a concatenation is adding its two parts one after the other. */
  lemma {:induction false} AddAllAppend<T(!new)>(s: seq<T>, a: seq<T>, b: seq<T>)
    ensures AddAll(s, a + b) == AddAll(AddAll(s, a), b)
    decreases |a|
  {
    if a == [] {
      assert a + b == b;
    } else {
      assert (a + b)[0] == a[0];
      assert (a + b)[1..] == a[1..] + b;
      AddAllAppend(Add(s, a[0]), a[1..], b);
    }
  }

  /** A duplicate-free sequence becomes a linked set holding exactly its elements in order. */
  lemma {:induction false} AddAllDistinct<T(!new)>(s: seq<T>, xs: seq<T>)
    requires Distinct(s + xs)
    ensures AddAll(s, xs) == s + xs
    decreases |xs|
  {
    if xs != [] {
      assert xs[0] !in s by {
        assert (s + xs)[|s|] == xs[0];
        forall i | 0 <= i < |s| ensures s[i] != xs[0] {
          assert (s + xs)[i] == s[i];
        }
      }
      assert (s + [xs[0]]) + xs[1..] == s + xs;
      AddAllDistinct(s + [xs[0]], xs[1..]);
    }
  }

  /** The position of the first occurrence of `x` in `s`. */
  function IndexOf<T(==,!new)>(s: seq<T>, x: T): (i: nat)
    requires x in s
    ensures i < |s| && s[i] == x
    ensures forall k | 0 <= k < |s| && s[k] == x :: i <= k
  {
    if s[0] == x then 0 else 1 + IndexOf(s[1..], x)
  }

  /** In a sequence that extends `p`, an element of `p` comes before an element outside it. */
  lemma PrefixPrecedes<T(!new)>(s: seq<T>, p: seq<T>, x: T, y: T)
    requires |p| <= |s| && s[..|p|] == p
    requires x in p && y in s && y !in p
    ensures IndexOf(s, x) < IndexOf(s, y)
  {
    var i := IndexOf(p, x);
    assert s[i] == x;
    forall j | 0 <= j < |p| ensures s[j] != y {
      assert s[j] == p[j];
    }
  }

  /** An element added (or already present) before the second part of a concatenation
      comes before every element that only the second part adds. */
  lemma AddAllPrecedes<T(!new)>(s: seq<T>, a: seq<T>, b: seq<T>, x: T, y: T)
    requires x in s || x in a
    requires y in b && y !in s && y !in a
    ensures x in AddAll(s, a + b) && y in AddAll(s, a + b)
    ensures IndexOf(AddAll(s, a + b), x) < IndexOf(AddAll(s, a + b), y)
  {
    AddAllAppend(s, a, b);
    PrefixPrecedes(AddAll(s, a + b), AddAll(s, a), x, y);
  }
}
