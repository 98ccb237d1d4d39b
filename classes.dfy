/** The classes of notes/handbook/Class/index.ts: field-initialising
    constructors, `move` with per-class default distances, the singleton
    factory `C.buildCFactory`, parameter properties and their key order, and
    the length-checked `fullName` accessor of `Employee`. */
module Classes {
  import opened JsValues

  // ---------------------------------------------------------------------
  // Objects whose key order is observable (`Object.keys`).

  /** A plain object as `Object.keys` sees it: non-index string keys in
      insertion order. Array-index keys ("0", "1", ...), which `Object.keys`
      lists first in numeric order, are not distinguished. */
  class OrderedObject {
    var keys: seq<string>
    var values: map<string, JsValue>

    ghost predicate Valid()
      reads this
    {
      && (forall i, j :: 0 <= i < j < |keys| ==> keys[i] != keys[j])
      && (forall k :: k in values <==> k in keys)
    }

    constructor ()
      ensures Valid() && keys == [] && values == map[]
    {
      keys := [];
      values := map[];
    }

    /** `this.key = value` for a non-index key: a new key goes to the end of
        the order, an existing one keeps its place. */
    method Set(key: string, value: JsValue)
      requires Valid()
      modifies this
      ensures Valid()
      ensures keys == if key in old(values) then old(keys) else old(keys) + [key]
      ensures values == old(values)[key := value]
    {
      if key !in values {
        keys := keys + [key];
      }
      values := values[key := value];
    }
  }

  /** `new User(1, 'ly', 21)`: the three parameter properties are assigned in
      parameter order, so `Object.keys(user)` is ['id', 'name', 'age']. */
  method NewUser(id: int, name: string, age: int) returns (user: OrderedObject)
    ensures fresh(user) && user.Valid()
    ensures user.keys == ["id", "name", "age"]
    ensures user.values == map["id" := Number(id), "name" := Str(name), "age" := Number(age)]
  {
    user := new OrderedObject();
    user.Set("id", Number(id));
    user.Set("name", Str(name));
    user.Set("age", Number(age));
  }

  /** `new D()`: the field initialiser assigns `_state`; the `state` getter
      lives on the prototype, so `Object.keys(d)` is ['_state']. The stored
      value is a placeholder string for the object `{ showModal: false }`,
      which is not a `JsValue`; only the key is modelled. */
  method NewD() returns (d: OrderedObject)
    ensures fresh(d) && d.Valid() && d.keys == ["_state"]
  {
    d := new OrderedObject();
    d.Set("_state", Str("{ showModal: false }"));
  }

  // ---------------------------------------------------------------------
  // Constructors that initialise fields.

  class Point {
    var x: int
    var y: int
    /** `color?: string` is declared but never assigned, so it is absent. */
    var color: Option<string>

    constructor (x0: int, y0: int)
      ensures x == x0 && y == y0 && color.None?
    {
      x := x0;
      y := y0;
      color := None;
    }

    /** The line `draw()` prints. */
    function Draw(): string
      reads this
    {
      "draw a point which coordinate is (" + NumberToString(x) + ", " + NumberToString(y) + ")"
    }
  }

  /** `new Point(0, 0)` draws at (0, 0) and has no `color` (`'color' in point` is false). */
  method PointExample() returns (line: string, hasColor: bool)
    ensures line == "draw a point which coordinate is (0, 0)" && !hasColor
  {
    var point := new Point(0, 0);
    line := point.Draw();
    hasColor := point.color.Some?;
    assert NumberToString(0) == "0";
  }

  /** `class Teacher extends People`: the inherited field initialiser sets name. */
  class Teacher {
    var name: string
    var title: Option<string>

    constructor ()
      ensures name == "default name" && title.None?
    {
      name := "default name";
      title := None;
    }
  }

  class Octopus {
    const name: string
    const numberOfLegs: int

    /** The initialiser `numberOfLegs = 8` runs before the constructor body sets name. */
    constructor (theName: string)
      ensures name == theName && numberOfLegs == 8
    {
      numberOfLegs := 8;
      name := theName;
    }
  }

  // ---------------------------------------------------------------------
  // Animal, Snake, Horse.

  /** Which class an animal was constructed with; `move` dispatches on it. */
  datatype Species = AnimalSpecies | SnakeSpecies | HorseSpecies

  class Animal {
    var name: string
    const species: Species

    constructor (kind: Species, theName: string)
      ensures name == theName && species == kind
    {
      name := theName;
      species := kind;
    }

    /** The default distance of each class's `move`. */
    static function DefaultDistance(kind: Species): int {
      match kind
      case AnimalSpecies => 0
      case SnakeSpecies => 5
      case HorseSpecies => 45
    }

    /** The lines `move(distanceInMeters?)` prints: Snake prints
        'Slithering...' and Horse 'Galloping...' before calling `super.move`
        with their own default; `Animal.move` prints "<name> moved <d>m.". */
    function Move(distanceInMeters: Option<int>): (lines: seq<string>)
      reads this
      ensures var d := if distanceInMeters.None? then DefaultDistance(species) else distanceInMeters.value;
        |lines| >= 1 && lines[|lines| - 1] == name + " moved " + NumberToString(d) + "m."
      ensures species == AnimalSpecies ==> |lines| == 1
      ensures species == SnakeSpecies ==> |lines| == 2 && lines[0] == "Slithering..."
      ensures species == HorseSpecies ==> |lines| == 2 && lines[0] == "Galloping..."
    {
      var d := match distanceInMeters
        case None => DefaultDistance(species)
        case Some(given) => given;
      var base := [name + " moved " + NumberToString(d) + "m."];
      match species
      case AnimalSpecies => base
      case SnakeSpecies => ["Slithering..."] + base
      case HorseSpecies => ["Galloping..."] + base
    }
  }

  /** `sam.move()` and `tom.move(34)`. */
  method MoveExamples() returns (samLines: seq<string>, tomLines: seq<string>)
    ensures samLines == ["Slithering...", "Sammy the Python moved 5m."]
    ensures tomLines == ["Galloping...", "Tommy the Palomino moved 34m."]
  {
    var sam := new Animal(SnakeSpecies, "Sammy the Python");
    var tom := new Animal(HorseSpecies, "Tommy the Palomino");
    samLines := sam.Move(None);
    tomLines := tom.Move(Some(34));
    assert NumberToString(5) == "5";
    assert NumberToString(34) == "34" by {
      assert DecimalString(3) == "3" && DigitChar(4) == '4';
    }
    assert "Sammy the Python" + " moved " + "5" + "m." == "Sammy the Python moved 5m.";
    assert "Tommy the Palomino" + " moved " + "34" + "m." == "Tommy the Palomino moved 34m.";
  }

  // ---------------------------------------------------------------------
  // The singleton.

  /** `class C` with its private constructor. */
  class C {
    constructor ()
    {
    }
  }

  /** The static side of class C: `static singleInstanceC: C | null = null`. */
  class CStatics {
    var singleInstanceC: C?

    constructor ()
      ensures singleInstanceC == null
    {
      singleInstanceC := null;
    }

    /** `C.buildCFactory()`: the stored instance when there is one (an object
        is truthy), otherwise a new instance, which is stored. */
    method BuildCFactory() returns (c: C)
      modifies this
      ensures old(singleInstanceC) != null ==> c == old(singleInstanceC)
      ensures old(singleInstanceC) == null ==> fresh(c)
      ensures singleInstanceC == c
    {
      if singleInstanceC != null {
        c := singleInstanceC;
      } else {
        singleInstanceC := new C();
        c := singleInstanceC;
      }
    }
  }

  /** Every call of buildCFactory after the first returns the first call's instance. */
  method SingletonExample() returns (same: bool)
    ensures same
  {
    var statics := new CStatics();
    var first := statics.BuildCFactory();
    var second := statics.BuildCFactory();
    var third := statics.BuildCFactory();
    same := first == second && second == third;
  }

  // ---------------------------------------------------------------------
  // The fullName accessor.

  const FullNameMaxLength: int := 10

  class Employee {
    /** `private _fullName?: string`: undefined (None) until first set. */
    var fullName: Option<string>

    constructor ()
      ensures fullName.None?
    {
      fullName := None;
    }

    /** `get fullName()`. */
    function GetFullName(): (r: Option<string>)
      reads this
      ensures r == fullName
    {
      fullName
    }

    /** `set fullName(newName)`: a name longer than 10 characters throws and
        leaves the field as it was; any other name (the empty one included,
        which is falsy) is stored. */
    method SetFullName(newName: string) returns (r: Result<()>)
      modifies this
      ensures r.Throw? <==> |newName| > FullNameMaxLength
      ensures r.Throw? ==> r.exception == Error("fullName has a max length of 10") && fullName == old(fullName)
      ensures r.Ok? ==> fullName == Some(newName)
    {
      if Truthy(Str(newName)) && |newName| > FullNameMaxLength {
        r := Throw(Error("fullName has a max length of " + NumberToString(FullNameMaxLength)));
        assert NumberToString(FullNameMaxLength) == "10" by {
          assert DecimalString(1) == "1" && DigitChar(0) == '0';
        }
        return;
      }
      fullName := Some(newName);
      r := Ok(());
    }
  }

  /** 'Bob Smith' (9 characters) is stored and read back; a longer name is
      then refused and 'Bob Smith' stays. */
  method EmployeeExample() returns (stored: Option<string>, refused: Result<()>, kept: Option<string>)
    ensures stored == Some("Bob Smith")
    ensures refused.Throw? && kept == Some("Bob Smith")
  {
    var employee := new Employee();
    var ok := employee.SetFullName("Bob Smith");
    stored := employee.GetFullName();
    refused := employee.SetFullName("Bob Smith Junior");
    kept := employee.GetFullName();
  }
}
