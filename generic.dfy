/** The generic functions and the generic class of
    src/handbook/Generic/generic.ts. A JavaScript array of two elements used
    as a tuple is a Dafny pair. */
module Generic {
  import opened JsValues

  /** `identity(arg)`. */
  function Identity<T>(arg: T): (r: T)
    ensures r == arg
  {
    arg
  }

  /** `loggingIdentity(arg)`: logs `arg.length` and returns the same array. */
  function LoggingIdentity<T>(arg: seq<T>): (r: (seq<T>, string))
    ensures r.0 == arg
    ensures Canonical(r.1) && ParseDecimal(r.1) == |arg|
  {
    ParseDecimalString(|arg|);
    (arg, DecimalString(|arg|))
  }

  /** `swap(tuple)`: `[tuple[1], tuple[0]]`. */
  function Swap<T, U>(tuple: (T, U)): (r: (U, T))
    ensures r.0 == tuple.1 && r.1 == tuple.0
  {
    (tuple.1, tuple.0)
  }

  /** Swapping twice gives back the tuple. */
  lemma SwapTwice<T, U>(tuple: (T, U))
    ensures Swap(Swap(tuple)) == tuple
  {
  }

  /** `swap([7, 'seven'])` is `['seven', 7]`. */
  lemma SwapExample()
    ensures Swap((7, "seven")) == ("seven", 7)
  {
  }

  /** `getTuple(x, y)`: `[x, y]`. */
  function GetTuple<T, U>(x: T, y: U): (r: (T, U))
    ensures r.0 == x && r.1 == y
  {
    (x, y)
  }

  /** Swapping a built tuple builds the tuple of the swapped arguments. */
  lemma SwapGetTuple<T, U>(x: T, y: U)
    ensures Swap(GetTuple(x, y)) == GetTuple(y, x)
  {
  }

  /** `getProperty(obj, key)` with `K extends keyof T`: the key is one of the
      object's keys, and the result is the value stored under it. */
  function GetProperty<K, V>(obj: map<K, V>, key: K): (r: V)
    requires key in obj
    ensures r == obj[key]
  {
    obj[key]
  }

  /** `getProperty({ a: 1, b: 2, c: 3, d: 4 }, 'a')` is 1. */
  lemma GetPropertyExample()
    ensures GetProperty(map["a" := 1, "b" := 2, "c" := 3, "d" := 4], "a") == 1
  {
  }

  /** `class MyIterator<T>`: it keeps the array it was given (the same array,
      not a copy) and an index that `next` moves forward. */
  class MyIterator<T> {
    var size: int
    var index: int
    var elements: array<T>

    /** The field initialisers run first (size 0, index -1, elements []),
        then the constructor body stores the given array. */
    constructor (items: array<T>)
      ensures size == 0 && index == -1 && elements == items
    {
      size := 0;
      index := -1;
      elements := items;
    }

    /** `next()`: `this.elements[++this.index]`: the index moves forward by
        one first, then the element there is read, undefined (None) past the
        end. Nothing else changes. */
    method Next() returns (r: Option<T>)
      modifies this
      ensures index == old(index) + 1
      ensures r == ReadIndex(elements[..], index)
      ensures elements == old(elements) && size == old(size)
    {
      index := index + 1;
      r := ReadIndex(elements[..], index);
    }
  }

  /** `new MyIterator(['a', 'b', 'c']).next()` is 'a', and the following
      calls give 'b', 'c' and then undefined. */
  method IteratorExample() returns (first: Option<string>, second: Option<string>,
                                    third: Option<string>, fourth: Option<string>)
    ensures first == Some("a") && second == Some("b") && third == Some("c") && fourth == None
  {
    var items := new string[3];
    items[0], items[1], items[2] := "a", "b", "c";
    var it := new MyIterator(items);
    first := it.Next();
    second := it.Next();
    third := it.Next();
    fourth := it.Next();
  }
}
