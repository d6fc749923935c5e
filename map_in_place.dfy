/**
 * `MutableCollection.mapInPlace(_:)`: runs a closure on every element, in index order,
 * letting it rewrite the element where it stands. The collection is an array here, and the
 * `inout` closure is a function from the old element to the new one.
 */
module MapInPlace {

  /** The elements of `s`, each passed through `f`. */
  function Mapped<T>(s: seq<T>, f: T -> T): (r: seq<T>)
    ensures |r| == |s|
    ensures forall i :: 0 <= i < |s| ==> r[i] == f(s[i])
  {
    if s == [] then [] else [f(s[0])] + Mapped(s[1..], f)
  }

  /** A closure that leaves every element as it is leaves the collection unchanged. */
  lemma MappedIdentity<T>(s: seq<T>, f: T -> T)
    requires forall x :: f(x) == x
    ensures Mapped(s, f) == s
  {
  }

  /**
   * Rewrites every element of `a` with `closure`, in index order. The closure is pure here,
   * so the order in which the indices are visited cannot be observed.
   */
  method MapInPlace<T>(a: array<T>, closure: T -> T)
    modifies a
    ensures a[..] == Mapped(old(a[..]), closure)
  {
    for i := 0 to a.Length
      invariant forall k :: 0 <= k < i ==> a[k] == closure(old(a[k]))
      invariant forall k :: i <= k < a.Length ==> a[k] == old(a[k])
    {
      a[i] := closure(a[i]);
    }
  }
}
