/** The runtime behaviour of the advanced-types snippets
    (src/handbook/AdvancedTypes/index.ts, its notes twin and the compiled
    index.js): the `extend` mixin, `padLeft`, the `isFish` and `in` type
    guards, the padders, and the null guards `f`, `f1`, `fixed`, `broken`. */
module AdvancedTypes {
  import opened JsValues

  // ---------------------------------------------------------------------
  // Objects and `extend`.

  /** A data property: its value and whether `for...in` visits it. */
  datatype Property = Property(value: JsValue, enumerable: bool)

  /** An object: its own properties, and the properties it inherits from its
      prototype chain (those an own property shadows are never read). */
  datatype JsObject = JsObject(own: map<string, Property>, inherited: map<string, Property>)

  /** The keys `for (const prop in obj)` visits: the enumerable own keys and the
      enumerable inherited keys that no own property shadows. */
  function ForInKeys(obj: JsObject): set<string> {
    (set k | k in obj.own && obj.own[k].enumerable)
      + (set k | k in obj.inherited && obj.inherited[k].enumerable && k !in obj.own)
  }

  /** The key -> value entries a `for...in` loop guarded by `hasOwnProperty`
      copies: the enumerable own properties. */
  function OwnEnumerable(obj: JsObject): map<string, JsValue> {
    map k | k in obj.own && obj.own[k].enumerable :: obj.own[k].value
  }

  /** `obj[key]`: the own property, else the inherited one, else undefined. */
  function Get(obj: JsObject, key: string): JsValue {
    if key in obj.own then obj.own[key].value
    else if key in obj.inherited then obj.inherited[key].value
    else Undefined
  }

  /** `key in obj`: an own or inherited property, whatever its value. */
  predicate Has(obj: JsObject, key: string) {
    key in obj.own || key in obj.inherited
  }

  /** `extend(first, second)`: a fresh object filled by two `for...in` loops,
      first's enumerable own properties and then second's, so on a shared key
      second's value is written last. The result is a plain object whose
      properties are all enumerable own data properties; it is given by its
      key -> value entries. The inputs are values and so are left unchanged. */
  method Extend(first: JsObject, second: JsObject) returns (result: map<string, JsValue>)
    ensures forall k :: k in result <==> k in OwnEnumerable(first) || k in OwnEnumerable(second)
    ensures forall k :: k in OwnEnumerable(second) ==> result[k] == OwnEnumerable(second)[k]
    ensures forall k :: k in OwnEnumerable(first) && k !in OwnEnumerable(second) ==>
      result[k] == OwnEnumerable(first)[k]
  {
    result := map[];
    var keys := ForInKeys(first);
    while keys != {}
      invariant keys <= ForInKeys(first)
      invariant forall k :: k in result <==> k in OwnEnumerable(first) && k !in keys
      invariant forall k :: k in result ==> result[k] == OwnEnumerable(first)[k]
      decreases keys
    {
      var prop :| prop in keys;
      if prop in first.own {
        result := result[prop := first.own[prop].value];
      }
      keys := keys - {prop};
    }
    assert result == OwnEnumerable(first);
    keys := ForInKeys(second);
    while keys != {}
      invariant keys <= ForInKeys(second)
      invariant forall k :: k in result <==>
        k in OwnEnumerable(first) || (k in OwnEnumerable(second) && k !in keys)
      invariant forall k :: k in result ==>
        result[k] == if k in OwnEnumerable(second) && k !in keys then OwnEnumerable(second)[k]
                     else OwnEnumerable(first)[k]
      decreases keys
    {
      var prop :| prop in keys;
      if prop in second.own {
        result := result[prop := second.own[prop].value];
      }
      keys := keys - {prop};
    }
  }

  /** The `extend` result as a map union: first's entries overridden by second's. */
  lemma ExtendIsUnion(first: JsObject, second: JsObject, result: map<string, JsValue>)
    requires forall k :: k in result <==> k in OwnEnumerable(first) || k in OwnEnumerable(second)
    requires forall k :: k in OwnEnumerable(second) ==> result[k] == OwnEnumerable(second)[k]
    requires forall k :: k in OwnEnumerable(first) && k !in OwnEnumerable(second) ==>
      result[k] == OwnEnumerable(first)[k]
    ensures result == OwnEnumerable(first) + OwnEnumerable(second)
  {
  }

  /** `new Person('Jim')`: an own enumerable `name`; `constructor` is inherited. */
  const Jim: JsObject :=
    JsObject(map["name" := Property(Str("Jim"), true)],
             map["constructor" := Property(Func("class Person"), false)])

  /** `ConsoleLogger.prototype`: the class's methods are own but not enumerable. */
  const ConsoleLoggerPrototype: JsObject :=
    JsObject(map["constructor" := Property(Func("class ConsoleLogger"), false),
                 "log" := Property(Func("log(name)"), false)],
             map[])

  /** `extend(new Person('Jim'), ConsoleLogger.prototype)` copies `name` only:
      the prototype's `log` is not enumerable, so `jim.log` is undefined. */
  method ExtendJim() returns (jim: map<string, JsValue>)
    ensures jim == map["name" := Str("Jim")]
    ensures "log" !in jim
  {
    jim := Extend(Jim, ConsoleLoggerPrototype);
    assert OwnEnumerable(ConsoleLoggerPrototype) == map[];
    assert OwnEnumerable(Jim) == map["name" := Str("Jim")];
    ExtendIsUnion(Jim, ConsoleLoggerPrototype, jim);
  }

  /** `extend({ name: 'ly' }, { age: 21 })` has both fields, and the template
      prints "ly is 21 years old this year". */
  method ExtendMixin() returns (mixinObj: map<string, JsValue>, line: string)
    ensures mixinObj == map["name" := Str("ly"), "age" := Number(21)]
    ensures line == "ly is 21 years old this year"
  {
    var first := JsObject(map["name" := Property(Str("ly"), true)], map[]);
    var second := JsObject(map["age" := Property(Number(21), true)], map[]);
    mixinObj := Extend(first, second);
    assert OwnEnumerable(first) == map["name" := Str("ly")];
    assert OwnEnumerable(second) == map["age" := Number(21)];
    ExtendIsUnion(first, second, mixinObj);
    assert mixinObj == map["name" := Str("ly"), "age" := Number(21)];
    line := ToText(mixinObj["name"]) + " is " + ToText(mixinObj["age"]) + " years old this year";
    MixinLine();
  }

  lemma MixinLine()
    ensures ToText(Str("ly")) + " is " + ToText(Number(21)) + " years old this year"
         == "ly is 21 years old this year"
  {
    TwentyOneText();
    assert "ly" + " is " == "ly is ";
    assert "ly is " + "21" == "ly is 21";
    assert "ly is 21" + " years old this year" == "ly is 21 years old this year";
  }

  /** `${21}` is "21". */
  lemma TwentyOneText()
    ensures ToText(Number(21)) == "21"
  {
    assert DecimalString(2) == "2" && DigitChar(1) == '1';
    assert DecimalString(21) == DecimalString(2) + [DigitChar(1)];
  }

  // ---------------------------------------------------------------------
  // padLeft and the padders.

  /** `padLeft(value, padding)`. */
  function PadLeft(value: string, padding: JsValue): (r: Result<string>)
    // a number n: n spaces (none for -1), then the value
    ensures padding.Number? && -1 <= padding.n < MaxArrayLength ==>
      && r.Ok?
      && var n := if padding.n < 0 then 0 else padding.n;
      && |r.value| == n + |value|
      && (forall i :: 0 <= i < n ==> r.value[i] == ' ')
      && r.value[n..] == value
    // a number that makes `Array(padding + 1)` an invalid length throws
    ensures padding.Number? && !ValidArrayLength(padding.n + 1) ==> r == Throw(InvalidArrayLength)
    ensures padding.NaN? ==> r == Throw(InvalidArrayLength)
    // a string: the padding, then the value
    ensures padding.Str? ==> r.Ok? && r.value == padding.s + value
    // anything else throws the error naming the padding
    ensures TypeOf(padding) != "number" && TypeOf(padding) != "string" ==>
      r == Throw(Error("Expected string or number, got '" + ToText(padding) + "'."))
  {
    if TypeOf(padding) == "number" then
      var pad := if padding.Number? then SpaceJoin(padding.n + 1) else Throw(InvalidArrayLength);
      match pad
      case Ok(spaces) => Ok(spaces + value)
      case Throw(e) => Throw(e)
    else if TypeOf(padding) == "string" then
      Ok(padding.s + value)
    else
      Throw(Error("Expected string or number, got '" + ToText(padding) + "'."))
  }

  /** `padLeft('Hello world', 4)` returns "    Hello world". */
  lemma PadLeftExample()
    ensures PadLeft("Hello world", Number(4)) == Ok("    Hello world")
  {
    assert ValidArrayLength(5);
    assert Spaces(4) == "    ";
    assert SpaceJoin(5) == Ok(Spaces(4));
    assert "    " + "Hello world" == "    Hello world";
  }

  /** The two `Padder` classes, by their constructor argument. */
  datatype Padder = SpaceRepeatingPadder(numSpaces: int) | StringPadder(value: string)

  /** `getPaddingString()`: `Array(numSpaces + 1).join(' ')`, or the stored string. */
  function GetPaddingString(p: Padder): (r: Result<string>)
    ensures p.SpaceRepeatingPadder? && -1 <= p.numSpaces < MaxArrayLength ==>
      r.Ok? && r.value == Spaces(if p.numSpaces < 0 then 0 else p.numSpaces)
    ensures p.SpaceRepeatingPadder? && !ValidArrayLength(p.numSpaces + 1) ==> r == Throw(InvalidArrayLength)
    ensures p.StringPadder? ==> r == Ok(p.value)
  {
    match p
    case SpaceRepeatingPadder(n) => SpaceJoin(n + 1)
    case StringPadder(s) => Ok(s)
  }

  /** padLeft with a number or a string pads exactly as the matching padder does. */
  lemma PadLeftIsPadder(value: string, padding: JsValue)
    requires padding.Number? || padding.Str?
    ensures var p := if padding.Number? then SpaceRepeatingPadder(padding.n) else StringPadder(padding.s);
      PadLeft(value, padding) ==
        match GetPaddingString(p)
        case Ok(s) => Ok(s + value)
        case Throw(e) => Throw(e)
  {
  }

  // ---------------------------------------------------------------------
  // Type guards.

  /** `isFish(pet)`: `pet.swim !== undefined`. */
  predicate IsFish(pet: JsObject) {
    Get(pet, "swim") != Undefined
  }

  /** isFish holds exactly when pet has a `swim` property whose value is not
      undefined; so the `in` guard holds whenever isFish does, but not conversely. */
  lemma IsFishVersusIn(pet: JsObject)
    ensures IsFish(pet) <==> Has(pet, "swim") && Get(pet, "swim") != Undefined
    ensures IsFish(pet) ==> Has(pet, "swim")
  {
  }

  /** `pet.name()`: TypeError unless the property holds a function. */
  function Invoke(pet: JsObject, name: string): (r: Result<string>)
    ensures r.Ok? <==> Get(pet, name).Func?
    ensures r.Ok? ==> r.value == name
  {
    if Get(pet, name).Func? then Ok(name) else Throw(TypeError("pet." + name + " is not a function"))
  }

  /** `typePredicates1(pet)` (compiled `typePredicates`): calls `swim` when
      isFish holds and `layEggs` otherwise; the result names the method called. */
  function TypePredicates1(pet: JsObject): (r: Result<string>)
    ensures IsFish(pet) ==> r == Invoke(pet, "swim")
    ensures !IsFish(pet) ==> r == Invoke(pet, "layEggs")
  {
    if IsFish(pet) then Invoke(pet, "swim") else Invoke(pet, "layEggs")
  }

  /** `typePredicates2(pet)`: the same with the guard `'swim' in pet`. */
  function TypePredicates2(pet: JsObject): (r: Result<string>)
    ensures Has(pet, "swim") ==> r == Invoke(pet, "swim")
    ensures !Has(pet, "swim") ==> r == Invoke(pet, "layEggs")
  {
    if Has(pet, "swim") then Invoke(pet, "swim") else Invoke(pet, "layEggs")
  }

  /** The two guards choose the same method except for a pet whose `swim`
      property is present but undefined: there `in` picks `swim`, which throws. */
  lemma GuardsDiffer(pet: JsObject)
    ensures TypePredicates1(pet) != TypePredicates2(pet) ==>
      Has(pet, "swim") && Get(pet, "swim") == Undefined
    ensures var undefinedSwim := JsObject(map["swim" := Property(Undefined, true),
                                              "layEggs" := Property(Func("layEggs() { }"), true)], map[]);
      TypePredicates1(undefinedSwim) == Ok("layEggs") && TypePredicates2(undefinedSwim).Throw?
  {
  }

  // ---------------------------------------------------------------------
  // Null guards. `string | null` is an Option: None is null.

  function Nullable(sn: Option<string>): JsValue {
    if sn.None? then Null else Str(sn.value)
  }

  /** `f(sn)`: 'default' for null, sn itself otherwise. */
  function F(sn: Option<string>): (r: string)
    ensures sn.None? ==> r == "default"
    ensures sn.Some? ==> r == sn.value
  {
    if sn.None? then "default" else sn.value
  }

  /** `f1(sn)`: `sn || 'default'`, so the empty string is replaced as well. */
  function F1(sn: Option<string>): (r: string)
    ensures sn.None? || sn == Some("") ==> r == "default"
    ensures sn.Some? && sn.value != "" ==> r == sn.value
  {
    Or(Nullable(sn), Str("default")).s
  }

  /** f and f1 differ on exactly one input, the empty string. */
  lemma FVersusF1(sn: Option<string>)
    ensures F(sn) != F1(sn) <==> sn == Some("")
  {
  }

  /** `fixed(name)`: `name = name || 'Bob'`, then the inner `postfix('great')`
      returns `name.charAt(0) + '.  the ' + epithet`. */
  method Fixed(name: Option<string>) returns (r: string)
    ensures name.Some? && name.value != "" ==> r == [name.value[0]] + ".  the great"
    ensures name.None? || name == Some("") ==> r == "B.  the great"
  {
    var current := Nullable(name);
    current := Or(current, Str("Bob"));
    r := [current.s[0]] + ".  the " + "great";
  }

  /** `broken(name)`: the same reassignment, but the call is commented out and
      the function returns ''. */
  method Broken(name: Option<string>) returns (r: string)
    ensures r == ""
  {
    var current := Nullable(name);
    current := Or(current, Str("Bob"));
    r := "";
  }
}
