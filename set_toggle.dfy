/**
 * `Set.toggle(_:)`: removes an item that is present and inserts one that is absent.
 * Swift's `mutating` method on the value type `Set` updates the caller's variable in place;
 * in Dafny the method `Toggle` takes the set in and hands the updated set back, and the
 * function `Toggled` is the value it must produce.
 */
module SetToggle {

  function Toggled<T(==,!new)>(s: set<T>, item: T): (r: set<T>)
    ensures item in r <==> item !in s
    ensures forall x :: x != item ==> (x in r <==> x in s)
    ensures item in s ==> |r| == |s| - 1
    ensures item !in s ==> |r| == |s| + 1
  {
    if item in s then s - {item} else s + {item}
  }

  /** Toggling the same item twice gives back the original set. */
  lemma ToggledTwice<T(!new)>(s: set<T>, item: T)
    ensures Toggled(Toggled(s, item), item) == s
  {
  }

  /** `toggle(_:)`: `remove` when the set contains the item, `insert` otherwise. */
  method Toggle<T(==,!new)>(s: set<T>, item: T) returns (r: set<T>)
    ensures r == Toggled(s, item)
  {
    if item in s {
      r := s - {item};
    } else {
      r := s + {item};
    }
  }
}
