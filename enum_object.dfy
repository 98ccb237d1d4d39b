/** The enum objects as the compiled JavaScript builds them
    (src/handbook/Enums/index.js): each IIFE starts from an empty object and
    runs one statement per member, in declaration order. */
module EnumObjects {
  import opened JsValues
  import opened Enums

  /** The object an enum IIFE fills in. Member names are never numeric, so the
      name keys and the number keys of the JavaScript object are kept apart. */
  class EnumTable {
    var forward: map<string, EnumValue>
    var reverse: map<int, string>

    /** `Season || (Season = {})`: a fresh, empty object. */
    constructor ()
      ensures forward == map[] && reverse == map[]
    {
      forward := map[];
      reverse := map[];
    }

    function Value(): EnumObject
      reads this
    {
      EnumObject(forward, reverse)
    }

    /** `E[E["name"] = n] = "name"`: the inner assignment stores the value
        under the name and yields n, the outer one stores the name under n. */
    method SetNumber(name: string, n: int)
      modifies this
      ensures forward == old(forward)[name := NumberValue(n)]
      ensures reverse == old(reverse)[n := name]
      ensures Value() == Apply(old(Value()), Write(name, NumberValue(n)))
    {
      forward := forward[name := NumberValue(n)];
      reverse := reverse[n := name];
    }

    /** `E["name"] = "s"`: a string member is stored under its name only. */
    method SetString(name: string, s: string)
      modifies this
      ensures forward == old(forward)[name := StringValue(s)]
      ensures reverse == old(reverse)
      ensures Value() == Apply(old(Value()), Write(name, StringValue(s)))
    {
      forward := forward[name := StringValue(s)];
    }

    /** `E["name"]`, undefined (None) for a missing key. */
    function Get(name: string): (r: Option<EnumValue>)
      reads this
      ensures r == Lookup(Value(), name)
    {
      if name in forward then Some(forward[name]) else None
    }

    /** `E[n]`, undefined (None) for a missing key. */
    function NameOf(n: int): (r: Option<string>)
      reads this
      ensures r == ReverseLookup(Value(), n)
    {
      if n in reverse then Some(reverse[n]) else None
    }
  }

  /** The Season IIFE (four numeric members, 0 to 3). */
  method BuildSeason() returns (e: EnumTable)
    ensures fresh(e) && Some(e.Value()) == Compile(SeasonMembers)
  {
    e := new EnumTable();
    e.SetNumber("SPRING", 0);
    e.SetNumber("SUMMER", 1);
    e.SetNumber("AUTUMN", 2);
    e.SetNumber("WINTER", 3);
    Accepts(SeasonMembers, SeasonWrites);
  }

  /** The Days IIFE, with the values 1 to 7 the compiler has filled in. */
  method BuildDays() returns (e: EnumTable)
    ensures fresh(e) && Some(e.Value()) == Compile(DaysMembers)
  {
    Accepts(DaysMembers, DaysWrites);
    ghost var ms, ws := DaysMembers, DaysWrites;
    e := new EnumTable();
    ReplayStep(ms, ws, 0, e.Value());
    e.SetNumber("Sun", 1);
    ReplayStep(ms, ws, 1, e.Value());
    e.SetNumber("Mon", 2);
    ReplayStep(ms, ws, 2, e.Value());
    e.SetNumber("Tue", 3);
    ReplayStep(ms, ws, 3, e.Value());
    e.SetNumber("Wed", 4);
    ReplayStep(ms, ws, 4, e.Value());
    e.SetNumber("Thu", 5);
    ReplayStep(ms, ws, 5, e.Value());
    e.SetNumber("Fri", 6);
    ReplayStep(ms, ws, 6, e.Value());
    e.SetNumber("Sat", 7);
  }

  /** The inner Days IIFE with duplicate values: `Days[3] = "Sun"` runs
      first and `Days[3] = "Wed"` overwrites it. */
  method BuildDuplicateDays() returns (e: EnumTable)
    ensures fresh(e) && Some(e.Value()) == Compile(DuplicateDaysMembers)
  {
    Accepts(DuplicateDaysMembers, DuplicateDaysWrites);
    ghost var ms, ws := DuplicateDaysMembers, DuplicateDaysWrites;
    e := new EnumTable();
    ReplayStep(ms, ws, 0, e.Value());
    e.SetNumber("Sun", 3);
    ReplayStep(ms, ws, 1, e.Value());
    e.SetNumber("Mon", 1);
    ReplayStep(ms, ws, 2, e.Value());
    e.SetNumber("Tue", 2);
    ReplayStep(ms, ws, 3, e.Value());
    e.SetNumber("Wed", 3);
    ReplayStep(ms, ws, 4, e.Value());
    e.SetNumber("Thu", 4);
    ReplayStep(ms, ws, 5, e.Value());
    e.SetNumber("Fri", 5);
    ReplayStep(ms, ws, 6, e.Value());
    e.SetNumber("Sat", 6);
  }

  /** The four comparisons the duplicate-Days block logs:
      `Days['Sun'] === 3`, `Days['Wed'] === 3`, `Days[3] === 'Sun'`, `Days[3] === 'Wed'`. */
  method DuplicateDaysComparisons() returns (sunIs3: bool, wedIs3: bool, threeIsSun: bool, threeIsWed: bool)
    ensures sunIs3 && wedIs3 && !threeIsSun && threeIsWed
  {
    var days := BuildDuplicateDays();
    DuplicateDaysValues();
    sunIs3 := days.Get("Sun") == Some(NumberValue(3));
    wedIs3 := days.Get("Wed") == Some(NumberValue(3));
    threeIsSun := days.NameOf(3) == Some("Sun");
    threeIsWed := days.NameOf(3) == Some("Wed");
  }

  /** The PromiseStatus IIFE: three string members, one write each. */
  method BuildPromiseStatus() returns (e: EnumTable)
    ensures fresh(e) && Some(e.Value()) == Compile(PromiseStatusMembers)
    ensures e.reverse == map[]
  {
    e := new EnumTable();
    e.SetString("Pending", "pending");
    e.SetString("Fulfilled", "fulfilled");
    e.SetString("Rejected", "rejected");
    Accepts(PromiseStatusMembers, PromiseStatusWrites);
  }

  /** The ConstantEnumMember IIFE, with THIRD folded to the constant 1. */
  method BuildConstantEnumMember() returns (e: EnumTable)
    ensures fresh(e) && Some(e.Value()) == Compile(ConstantEnumMembers)
    ensures e.NameOf(1) == Some("THIRD")
  {
    e := new EnumTable();
    e.SetNumber("FIRST", 0);
    e.SetNumber("SECOND", 1);
    e.SetNumber("THIRD", 1);
    ConstantEnumMemberValues();
    ghost var env := map["FIRST" := NumberValue(0), "SECOND" := NumberValue(1)];
    assert Eval(MemberRef("FIRST"), env) == Some(0) && Eval(MemberRef("SECOND"), env) == Some(1);
    Accepts(ConstantEnumMembers, ConstantEnumWrites);
  }

  /** The ComputedEnumMember IIFE: the value `'abcd'.length` is computed as
      the statement runs. */
  method BuildComputedEnumMember() returns (e: EnumTable)
    ensures fresh(e) && Some(e.Value()) == Compile(ComputedEnumMembers)
  {
    e := new EnumTable();
    e.SetNumber("FIRST", |"abcd"|);
    Accepts(ComputedEnumMembers, ComputedEnumWrites);
  }

  /** The LogLevel IIFE. */
  method BuildLogLevel() returns (e: EnumTable)
    ensures fresh(e) && Some(e.Value()) == Compile(LogLevelMembers)
  {
    e := new EnumTable();
    e.SetNumber("ERROR", 0);
    e.SetNumber("WARN", 1);
    e.SetNumber("INFO", 2);
    e.SetNumber("DEBUG", 3);
    Accepts(LogLevelMembers, LogLevelWrites);
  }

  /** The compiled `printImportant`, reading the LogLevel object it is given:
      it prints the three lines exactly when `LogLevel[key] <= LogLevel.WARN`. */
  method PrintImportantOn(logLevel: EnumTable, key: string, message: string) returns (lines: seq<string>)
    requires Some(logLevel.Value()) == Compile(LogLevelMembers)
    ensures lines == PrintImportant(key, message)
    ensures lines != [] <==> key == "ERROR" || key == "WARN"
  {
    PrintImportantKeys(key, message);
    var num := logLevel.Get(key);
    var warn := logLevel.Get("WARN");
    lines := [];
    if num.Some? && num.value.NumberValue? && warn.Some? && warn.value.NumberValue? {
      if num.value.n <= warn.value.n {
        lines := [LogLine("Log level key is: ", key),
                  LogLine("Log level value is: ", NumberToString(num.value.n)),
                  LogLine("Log level message is: ", message)];
      }
    }
  }
}
