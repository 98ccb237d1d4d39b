/** The runtime parts of the interface snippets (src/handbook/Interface/index.ts
    and its notes twin): `createSquare` with its optional properties, `search`,
    the hybrid `getCounter` object, and pushing through a cast readonly array. */
module Interfaces {
  import opened JsValues

  // ---------------------------------------------------------------------
  // createSquare

  /** `SquareConfig`: both properties are optional (None when absent). Any
      other property an argument carries is never read. */
  datatype SquareConfig = SquareConfig(color: Option<string>, width: Option<int>)

  datatype Square = Square(color: string, area: int)

  /** `createSquare(config)`: starts from color 'white' and area 100 and
      replaces the area by width * width when `config.width` is truthy
      (present and not 0). The configured color is never copied. */
  method CreateSquare(config: SquareConfig) returns (newSquare: Square)
    ensures newSquare.color == "white"
    ensures config.width.Some? && config.width.value != 0 ==>
      newSquare.area == config.width.value * config.width.value
    ensures config.width.None? || config.width == Some(0) ==> newSquare.area == 100
  {
    newSquare := Square("white", 100);
    var width := if config.width.None? then Undefined else Number(config.width.value);
    if Truthy(width) {
      newSquare := newSquare.(area := width.n * width.n);
    }
  }

  /** `createSquare({ color: 'black' })` is still white with area 100, and
      `createSquare({ width: 100, ... })` has area 10000. */
  method CreateSquareExamples() returns (black: Square, wide: Square)
    ensures black == Square("white", 100)
    ensures wide == Square("white", 10000)
  {
    black := CreateSquare(SquareConfig(Some("black"), None));
    wide := CreateSquare(SquareConfig(None, Some(100)));
  }

  // ---------------------------------------------------------------------
  // search

  /** sub occurs in source starting at index i. */
  predicate OccursAt(source: string, sub: string, i: int) {
    0 <= i && i + |sub| <= |source| && source[i..i + |sub|] == sub
  }

  /** `source.includes(sub, i)`: the first position tried is i, then each
      later one while sub still fits. */
  function IncludesFrom(source: string, sub: string, i: nat): (r: bool)
    ensures r <==> exists j :: i <= j && OccursAt(source, sub, j)
    decreases |source| - i
  {
    if i + |sub| > |source| then
      assert forall j :: i <= j ==> !OccursAt(source, sub, j);
      false
    else if source[i..i + |sub|] == sub then
      assert OccursAt(source, sub, i);
      true
    else
      var r := IncludesFrom(source, sub, i + 1);
      assert forall j :: i <= j && OccursAt(source, sub, j) ==> j == i || i + 1 <= j;
      r
  }

  /** `search(source, sub)`: `source.includes(sub)`, true exactly when sub
      occurs somewhere in source. */
  function Search(source: string, sub: string): (r: bool)
    ensures r <==> exists j :: OccursAt(source, sub, j)
  {
    IncludesFrom(source, sub, 0)
  }

  /** The empty string occurs in every string; a longer string never occurs
      in a shorter one. */
  lemma SearchBounds(source: string, sub: string)
    ensures sub == "" ==> Search(source, sub)
    ensures |sub| > |source| ==> !Search(source, sub)
  {
    if sub == "" {
      assert OccursAt(source, sub, 0);
    }
  }

  // ---------------------------------------------------------------------
  // getCounter: a function object with properties.

  /** The function object `getCounter` builds: its own properties `interval`
      and `reset` (undefined until assigned). */
  class Counter {
    var interval: JsValue
    var reset: JsValue

    /** `(function (start) { })`: a fresh function object without properties. */
    constructor ()
      ensures interval == Undefined && reset == Undefined
    {
      interval := Undefined;
      reset := Undefined;
    }

    /** Calling the counter: its body is empty, so it returns undefined. */
    method Call(start: int) returns (r: JsValue)
      ensures r == Undefined
    {
      r := Undefined;
    }
  }

  /** `getCounter()`: the function object with interval 123 and a reset method. */
  method GetCounter() returns (counter: Counter)
    ensures fresh(counter)
    ensures counter.interval == Number(123)
    ensures counter.reset.Func?
  {
    counter := new Counter();
    counter.interval := Number(123);
    counter.reset := Func("function () { }");
  }

  // ---------------------------------------------------------------------
  // A readonly array cast back to an array.

  /** A JavaScript array, which `push` grows in place. */
  class JsArray {
    var elements: seq<int>

    constructor (items: seq<int>)
      ensures elements == items
    {
      elements := items;
    }

    /** `push(x)`: appends x and returns the new length. */
    method Push(x: int) returns (newLength: int)
      modifies this
      ensures elements == old(elements) + [x]
      ensures newLength == |elements|
    {
      elements := elements + [x];
      newLength := |elements|;
    }
  }

  /** `const array = <Array<number>>immutableArr; array.push(4)`: the cast
      only changes the static type, so both names denote one array, which is
      now [1, 2, 3, 4]. */
  method ReadonlyCastPush() returns (castArray: seq<int>, immutableArr: seq<int>, newLength: int)
    ensures castArray == [1, 2, 3, 4] && immutableArr == [1, 2, 3, 4] && newLength == 4
  {
    var readonlyArray := new JsArray([1, 2, 3]);
    var cast := readonlyArray;
    newLength := cast.Push(4);
    castArray := cast.elements;
    immutableArr := readonlyArray.elements;
  }
}
