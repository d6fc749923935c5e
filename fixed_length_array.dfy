/**
 * `FixedLengthArray`: an array whose length is chosen at construction and never changes
 * afterwards; elements are read and written by index.
 */
module FixedArray {

  class FixedLengthArray<T(==)> {
    /** The elements. The array is never replaced and an array's length is immutable, so `Count()` never changes. */
    const storage: array<T>

    function Count(): (n: nat)
      ensures n == storage.Length
    {
      storage.Length
    }

    /** `count` copies of `repeating`. */
    constructor (repeating: T, count: nat)
      ensures fresh(storage)
      ensures Count() == count
      ensures forall i :: 0 <= i < count ==> storage[i] == repeating
    {
      storage := new T[count](_ => repeating);
    }

    /** The elements of `elements`, in order. */
    constructor FromStorage(elements: seq<T>)
      ensures fresh(storage)
      ensures storage[..] == elements
    {
      storage := new T[|elements|](i requires 0 <= i < |elements| => elements[i]);
    }

    /** The subscript getter. */
    function Get(index: int): (r: T)
      requires 0 <= index < Count()
      reads storage
      ensures r == storage[..][index]
      ensures Contains(r)
    {
      storage[index]
    }

    /** The subscript setter: element `index` becomes `newValue`, every other element and the count stay. */
    method Set(index: int, newValue: T)
      requires 0 <= index < Count()
      modifies storage
      ensures Get(index) == newValue
      ensures forall j :: 0 <= j < Count() && j != index ==> Get(j) == old(Get(j))
      ensures storage[..] == old(storage[..])[index := newValue]
    {
      storage[index] := newValue;
    }

    function Contains(element: T): (r: bool)
      reads storage
      ensures r <==> exists i :: 0 <= i < Count() && storage[i] == element
    {
      element in storage[..]
    }

    /** Swift's synthesized `==`: two arrays are equal when their storages are. */
    function Equals(other: FixedLengthArray<T>): (r: bool)
      reads storage, other.storage
      ensures r <==> Count() == other.Count() && forall i :: 0 <= i < Count() ==> storage[i] == other.storage[i]
    {
      storage[..] == other.storage[..]
    }
  }
}
