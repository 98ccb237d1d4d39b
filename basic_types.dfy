/** The runtime behaviour of notes/handbook/BasicType/index.ts: three numeric
    enums, the `never`-returning `error`/`fail`, and `checkNumber`. */
module BasicTypes {
  import opened JsValues
  import opened Enums

  const WeekdayMembers: seq<Member> :=
    [Member("Sunny", Implicit), Member("Monday", Implicit), Member("Tuesday", Implicit),
     Member("Wednesday", Implicit), Member("Friday", Implicit), Member("Saturday", Implicit)]

  const WeekdayWrites: seq<Write> :=
    [Write("Sunny", NumberValue(0)), Write("Monday", NumberValue(1)), Write("Tuesday", NumberValue(2)),
     Write("Wednesday", NumberValue(3)), Write("Friday", NumberValue(4)), Write("Saturday", NumberValue(5))]

  /** Weekday counts from 0, so Monday is 1. */
  lemma WeekdayValues()
    ensures Compile(WeekdayMembers).Some?
    ensures var e := Compile(WeekdayMembers).value;
      Lookup(e, "Monday") == Some(NumberValue(1)) && Lookup(e, "Tuesday") == Some(NumberValue(2))
  {
    Accepts(WeekdayMembers, WeekdayWrites);
  }

  const ColorMembers: seq<Member> :=
    [Member("Red", NumberInit(Literal(2))), Member("Green", NumberInit(Literal(4))), Member("Blue", Implicit)]

  const ColorWrites: seq<Write> :=
    [Write("Red", NumberValue(2)), Write("Green", NumberValue(4)), Write("Blue", NumberValue(5))]

  /** Blue follows Green = 4, so it is 5 (previous value + 1, not its
      position), and Color[4] is 'Green'. */
  lemma ColorValues()
    ensures Compile(ColorMembers).Some?
    ensures var e := Compile(ColorMembers).value;
      && Lookup(e, "Blue") == Some(NumberValue(5))
      && ReverseLookup(e, 4) == Some("Green")
      && ReverseLookup(e, 2) == Some("Red")
  {
    Accepts(ColorMembers, ColorWrites);
  }

  const LoadingStatusMembers: seq<Member> :=
    [Member("INITIAL", NumberInit(Literal(0))), Member("LOADING", NumberInit(Literal(0))),
     Member("SUCCESS", NumberInit(Literal(1))), Member("ERROR", NumberInit(Literal(-1)))]

  const LoadingStatusWrites: seq<Write> :=
    [Write("INITIAL", NumberValue(0)), Write("LOADING", NumberValue(0)),
     Write("SUCCESS", NumberValue(1)), Write("ERROR", NumberValue(-1))]

  /** INITIAL and LOADING share the value 0; the reverse entry 0 names the
      later one. */
  lemma LoadingStatusValues()
    ensures Compile(LoadingStatusMembers).Some?
    ensures var e := Compile(LoadingStatusMembers).value;
      && Lookup(e, "INITIAL") == Some(NumberValue(0))
      && Lookup(e, "LOADING") == Some(NumberValue(0))
      && Lookup(e, "ERROR") == Some(NumberValue(-1))
      && ReverseLookup(e, 0) == Some("LOADING")
  {
    Accepts(LoadingStatusMembers, LoadingStatusWrites);
  }

  /** `error(message)`: never returns, throws `new Error(message)`. The result
      type is any type at all, as `never` is assignable to every type. */
  function RaiseError<T>(message: string): (r: Result<T>)
    ensures r.Throw? && r.exception.Error? && r.exception.message == message
  {
    Throw(Error(message))
  }

  /** `fail()`: returns what `error("Something failed")` returns, i.e. throws. */
  function Fail<T>(): (r: Result<T>)
    ensures r.Throw? && r.exception == Error("Something failed")
  {
    RaiseError("Something failed")
  }

  /** `checkNumber(x)`: true for a number, false for a string, and for any
      other value the exception thrown by `error("Failure")`. */
  function CheckNumber(x: JsValue): (r: Result<bool>)
    ensures r == Ok(true) <==> TypeOf(x) == "number"
    ensures r == Ok(false) <==> TypeOf(x) == "string"
    ensures r.Throw? <==> TypeOf(x) != "number" && TypeOf(x) != "string"
    ensures r.Throw? ==> r.exception == Error("Failure")
  {
    if x.Number? || x.NaN? then Ok(true)
    else if x.Str? then Ok(false)
    else RaiseError("Failure")
  }

  /** `const forever = [1, 0, 2, 4]`. */
  const Forever: seq<int> := [1, 0, 2, 4]

  /** `forever[100]` reads undefined instead of failing. */
  lemma ForeverOutOfBounds()
    ensures ReadIndex(Forever, 100) == None
    ensures ReadIndex(Forever, 3) == Some(4)
  {
    assert |Forever| == 4;
  }
}
