/** Runtime values of the JavaScript programs the handbook snippets compile to,
    and the few built-in conversions several snippets share. Numbers are modelled
    as exact integers. */
module JsValues {

  datatype Option<T> = None | Some(value: T)

  /** An exception a snippet throws: `new Error(message)`, the RangeError the
      engine raises for an invalid array length, or the TypeError it raises
      for calling a value that is not a function. */
  datatype Exception = Error(message: string) | RangeError(message: string) | TypeError(message: string)

  /** The outcome of a call that may throw. */
  datatype Result<T> = Ok(value: T) | Throw(exception: Exception)

  /** A JavaScript value. A function is represented by its source text, which is
      what `String(f)` yields. */
  datatype JsValue =
    | Undefined
    | Null
    | Bool(b: bool)
    | Number(n: int)
    | NaN
    | Str(s: string)
    | Func(source: string)

  /** ECMAScript ToBoolean: the values `if (v)` and `v || d` treat as true. */
  predicate Truthy(v: JsValue) {
    match v
    case Undefined => false
    case Null => false
    case Bool(b) => b
    case Number(n) => n != 0
    case NaN => false
    case Str(s) => s != ""
    case Func(_) => true
  }

  /** `typeof v`. */
  function TypeOf(v: JsValue): string {
    match v
    case Undefined => "undefined"
    case Null => "object"
    case Bool(_) => "boolean"
    case Number(_) => "number"
    case NaN => "number"
    case Str(_) => "string"
    case Func(_) => "function"
  }

  /** `a || b`: a when it is truthy, b otherwise. */
  function Or(a: JsValue, b: JsValue): (r: JsValue)
    ensures Truthy(a) ==> r == a
    ensures !Truthy(a) ==> r == b
  {
    if Truthy(a) then a else b
  }

  /** `xs[i]` on an array: an index outside the array reads `undefined` (None)
      instead of failing. */
  function ReadIndex<T>(xs: seq<T>, i: int): (r: Option<T>)
    ensures r.Some? <==> 0 <= i < |xs|
    ensures r.Some? ==> r.value == xs[i]
  {
    if 0 <= i < |xs| then Some(xs[i]) else None
  }

  /** The largest length `new Array(n)` accepts is 2^32 - 1. */
  const MaxArrayLength: int := 0xFFFF_FFFF

  /** `Array(n)` raises a RangeError for a length outside 0 .. 2^32 - 1. */
  predicate ValidArrayLength(n: int) {
    0 <= n <= MaxArrayLength
  }

  const InvalidArrayLength: Exception := RangeError("Invalid array length")

  /** n space characters. */
  function Spaces(n: nat): (s: string)
    ensures |s| == n
    ensures forall i :: 0 <= i < n ==> s[i] == ' '
  {
    if n == 0 then "" else Spaces(n - 1) + " "
  }

  /** `Array(length).join(' ')`: the array's length - 1 holes joined by single
      spaces (a hole joins as the empty string), or the RangeError for a length
      the array constructor refuses. */
  function SpaceJoin(length: int): (r: Result<string>)
    ensures r.Ok? <==> ValidArrayLength(length)
    ensures r.Ok? ==> r.value == Spaces(if length == 0 then 0 else length - 1)
    ensures r.Throw? ==> r.exception == InvalidArrayLength
  {
    if !ValidArrayLength(length) then Throw(InvalidArrayLength)
    else if length == 0 then Ok("")
    else Ok(Spaces(length - 1))
  }

  // ---------------------------------------------------------------------
  // Decimal text of non-negative integers: `String(n)` and `Number(s)`.

  predicate IsDigit(c: char) {
    '0' <= c <= '9'
  }

  predicate AllDigits(s: string) {
    forall i :: 0 <= i < |s| ==> IsDigit(s[i])
  }

  /** The text `String(n)` produces for an integer: digits without leading zeros. */
  predicate Canonical(s: string) {
    |s| > 0 && AllDigits(s) && (|s| > 1 ==> s[0] != '0')
  }

  function DigitChar(d: int): (c: char)
    requires 0 <= d < 10
    ensures IsDigit(c)
  {
    "0123456789"[d]
  }

  function DigitValue(c: char): (d: nat)
    requires IsDigit(c)
    ensures d < 10 && DigitChar(d) == c
  {
    (c as int) - ('0' as int)
  }

  /** `String(n)` for a non-negative integer. */
  function DecimalString(n: nat): (s: string)
    ensures Canonical(s)
    ensures s[|s| - 1] == DigitChar(n % 10)
  {
    if n < 10 then [DigitChar(n)] else DecimalString(n / 10) + [DigitChar(n % 10)]
  }

  /** `String(n)` for an integer, with a leading minus sign when negative. */
  function NumberToString(n: int): string {
    if n < 0 then "-" + DecimalString(-n) else DecimalString(n)
  }

  /** `String(v)`, which is also what a template literal inserts for `${v}`. */
  function ToText(v: JsValue): string {
    match v
    case Undefined => "undefined"
    case Null => "null"
    case Bool(b) => if b then "true" else "false"
    case Number(n) => NumberToString(n)
    case NaN => "NaN"
    case Str(s) => s
    case Func(source) => source
  }

  /** `Number(s)` for a string of decimal digits (leading zeros are ignored). */
  function ParseDecimal(s: string): nat
    requires AllDigits(s)
  {
    if s == [] then 0 else ParseDecimal(s[..|s| - 1]) * 10 + DigitValue(s[|s| - 1])
  }

  lemma {:induction false} ParseDecimalString(n: nat)
    ensures ParseDecimal(DecimalString(n)) == n
  {
    var s := DecimalString(n);
    if n >= 10 {
      assert s[..|s| - 1] == DecimalString(n / 10);
      ParseDecimalString(n / 10);
    }
  }

  lemma {:induction false} ParsePositive(s: string)
    requires Canonical(s) && s[0] != '0'
    ensures ParseDecimal(s) >= 1
  {
    if |s| > 1 {
      var p := s[..|s| - 1];
      assert p[0] == s[0];
      ParsePositive(p);
    } else {
      assert s[..0] == [];
    }
  }

  lemma {:induction false} DecimalStringParse(s: string)
    requires Canonical(s)
    ensures DecimalString(ParseDecimal(s)) == s
  {
    var p := s[..|s| - 1];
    var c := s[|s| - 1];
    assert s == p + [c];
    if |s| == 1 {
      assert p == [];
    } else {
      assert p[0] == s[0];
      ParsePositive(p);
      DecimalStringParse(p);
      var n := ParseDecimal(s);
      assert n / 10 == ParseDecimal(p) && n % 10 == DigitValue(c);
    }
  }
}
