/** src/handbook/VariableDeclaration/index.ts: `sumMatrix`, whose two
    nested loops share one function-scoped `var i`, array destructuring
    (swap, rest, holes), the destructuring default, and object spread. */
module VariableDeclaration {
  import opened JsValues

  /** The sum of one row. */
  function RowSum(row: seq<int>): int
    decreases |row|
  {
    if row == [] then 0 else RowSum(row[..|row| - 1]) + row[|row| - 1]
  }

  /** What `sumMatrix` adds from the outer loop's index i onwards, with at most
      `fuel` more outer rounds (None when that is not enough). Row i is summed
      by the inner loop, which leaves the shared i at the row's length; the
      outer `i++` then makes the next outer index that length + 1. */
  function Rounds(matrix: seq<seq<int>>, i: nat, fuel: nat): Option<int>
    decreases fuel
  {
    if i >= |matrix| then Some(0)
    else if fuel == 0 then None
    else
      match Rounds(matrix, |matrix[i]| + 1, fuel - 1)
      case None => None
      case Some(rest) => Some(RowSum(matrix[i]) + rest)
  }

  /** `sumMatrix(matrix)`, on a matrix for which the outer loop ends within
      `fuel` rounds: it returns the sum of the rows the shared index visits. */
  method SumMatrix(matrix: seq<seq<int>>, ghost fuel: nat) returns (sum: int)
    requires Rounds(matrix, 0, fuel).Some?
    ensures sum == Rounds(matrix, 0, fuel).value
  {
    sum := 0;
    var i := 0;
    ghost var f := fuel;
    while i < |matrix|
      invariant Rounds(matrix, i, f).Some?
      invariant sum + Rounds(matrix, i, f).value == Rounds(matrix, 0, fuel).value
      decreases f
    {
      var currentRow := matrix[i];
      ghost var before := sum;
      i := 0;
      while i < |currentRow|
        invariant 0 <= i <= |currentRow|
        invariant sum == before + RowSum(currentRow[..i])
      {
        assert currentRow[..i + 1][..i] == currentRow[..i];
        sum := sum + currentRow[i];
        i := i + 1;
      }
      assert currentRow[..i] == currentRow;
      i := i + 1;
      f := f - 1;
    }
  }

  /** `sumMatrix([[1, 2, 3], [4, 5, 6]])` is 6: after the first row the shared
      index is 4, past the last row. */
  method SumMatrixExample() returns (sum: int)
    ensures sum == 6
  {
    var m := [[1, 2, 3], [4, 5, 6]];
    assert RowSum(m[0]) == 6 by {
      assert m[0] == [1, 2, 3];
      assert [1, 2, 3][..2] == [1, 2] && [1, 2][..1] == [1] && [1][..0] == [];
      assert RowSum([1]) == 1 && RowSum([1, 2]) == 3;
    }
    assert Rounds(m, 0, 1) == Some(6);
    sum := SumMatrix(m, 1);
  }

  /** An empty matrix sums to 0 without any round. */
  lemma SumMatrixEmpty(fuel: nat)
    ensures Rounds([], 0, fuel) == Some(0)
  {
  }

  /** When the first row is at least as long as the matrix minus one, only
      the first row is summed. */
  lemma FirstRowOnly(matrix: seq<seq<int>>, fuel: nat)
    requires |matrix| > 0 && |matrix[0]| + 1 >= |matrix| && fuel > 0
    ensures Rounds(matrix, 0, fuel) == Some(RowSum(matrix[0]))
  {
    assert Rounds(matrix, |matrix[0]| + 1, fuel - 1) == Some(0);
  }

  /** More fuel does not change a result already reached. */
  lemma {:induction false} RoundsMonotone(matrix: seq<seq<int>>, i: nat, fuel: nat, more: nat)
    requires Rounds(matrix, i, fuel).Some? && fuel <= more
    ensures Rounds(matrix, i, more) == Rounds(matrix, i, fuel)
    decreases fuel
  {
    if i < |matrix| {
      RoundsMonotone(matrix, |matrix[i]| + 1, fuel - 1, more - 1);
    }
  }

  /** `sumMatrix([[], []])` never returns: every inner loop leaves the shared
      index at 0, so the outer loop comes back to row 1 forever. */
  lemma {:induction false} SumMatrixLoopsForever(fuel: nat)
    ensures Rounds([[], []], 0, fuel).None?
    ensures Rounds([[], []], 1, fuel).None?
    decreases fuel
  {
    if fuel > 0 {
      SumMatrixLoopsForever(fuel - 1);
    }
  }

  // ---------------------------------------------------------------------
  // Array destructuring.

  /** `[first, second] = [second, first]` exchanges the two variables. */
  method DestructuringSwap<T>(first0: T, second0: T) returns (first: T, second: T)
    ensures first == second0 && second == first0
  {
    first, second := first0, second0;
    first, second := second, first;
  }

  /** `const [firstEle, ...rest] = xs`: the first element (undefined for an
      empty array) and the array of the others. */
  function RestDestructuring<T>(xs: seq<T>): (r: (Option<T>, seq<T>))
    ensures r.0 == ReadIndex(xs, 0)
    ensures r.0.Some? ==> [r.0.value] + r.1 == xs
    ensures r.0.None? ==> xs == [] && r.1 == []
  {
    if xs == [] then (None, []) else (Some(xs[0]), xs[1..])
  }

  /** `[1, 2, 3, 4]` destructures to firstEle 1 and rest `[2, 3, 4]`. */
  lemma RestExample()
    ensures RestDestructuring([1, 2, 3, 4]) == (Some(1), [2, 3, 4])
  {
  }

  /** `const [, , third, , fifth] = xs`: the holes skip elements 0, 1 and 3. */
  function HolesDestructuring<T>(xs: seq<T>): (r: (Option<T>, Option<T>))
    ensures r.0 == ReadIndex(xs, 2) && r.1 == ReadIndex(xs, 4)
  {
    (ReadIndex(xs, 2), ReadIndex(xs, 4))
  }

  lemma HolesExample()
    ensures HolesDestructuring([1, 2, 3, 4, 5, 6]) == (Some(3), Some(5))
  {
  }

  // ---------------------------------------------------------------------
  // Object destructuring and spread. A plain object is its key -> value map.

  /** `obj.key`: undefined for a missing key. */
  function Property(obj: map<string, JsValue>, key: string): JsValue {
    if key in obj then obj[key] else Undefined
  }

  /** `let { a, b = 1001 } = wholeObject`: the default replaces b only when
      b reads undefined (missing, or present with the value undefined). */
  function KeepWholeObject(wholeObject: map<string, JsValue>): (r: (JsValue, JsValue))
    ensures r.0 == Property(wholeObject, "a")
    ensures Property(wholeObject, "b") == Undefined ==> r.1 == Number(1001)
    ensures Property(wholeObject, "b") != Undefined ==> r.1 == wholeObject["b"]
  {
    var b := Property(wholeObject, "b");
    (Property(wholeObject, "a"), if b == Undefined then Number(1001) else b)
  }

  /** The default is not applied for null, nor for a falsy b such as 0. */
  lemma DefaultOnlyForUndefined()
    ensures KeepWholeObject(map["a" := Str("x")]).1 == Number(1001)
    ensures KeepWholeObject(map["a" := Str("x"), "b" := Undefined]).1 == Number(1001)
    ensures KeepWholeObject(map["a" := Str("x"), "b" := Null]).1 == Null
    ensures KeepWholeObject(map["a" := Str("x"), "b" := Number(0)]).1 == Number(0)
  {
  }

  /** `someObj = { ...someObj, a: 8 }`: a fresh object with someObj's entries
      and then the literal's, so the literal's keys override. */
  method SpreadOverride(someObj0: map<string, JsValue>) returns (someObj: map<string, JsValue>)
    ensures someObj.Keys == someObj0.Keys + {"a"}
    ensures someObj["a"] == Number(8)
    ensures forall k :: k in someObj0 && k != "a" ==> someObj[k] == someObj0[k]
  {
    someObj := someObj0;
    someObj := someObj + map["a" := Number(8)];
  }

  /** `{ ...{ a: 1, b: 2 }, a: 8 }` is `{ a: 8, b: 2 }`. */
  method SpreadExample() returns (someObj: map<string, JsValue>)
    ensures someObj == map["a" := Number(8), "b" := Number(2)]
  {
    someObj := map["a" := Number(1), "b" := Number(2)];
    someObj := SpreadOverride(someObj);
  }
}
