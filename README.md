# TypeScript handbook notes, modelled in Dafny

The repository is a set of TypeScript handbook snippets, some with their
compiled JavaScript beside them. Most of it is commentary on compile-time
typing. This project models the parts that run and whose behaviour can be
stated:

- **Enums.** `enums.dfy` gives the numbering rules of a TypeScript enum
  declaration as a recursive function over the member list:
  - the first uninitialised member is 0;
  - a later uninitialised member is the previous value + 1;
  - constant member expressions are folded;
  - string members take their literal.

  The declaration compiles to the bidirectional object
  `obj[obj[key] = value] = key`. Lemmas state the forward and reverse entries
  of that object, last write winning.
- **Compiled enum objects.** `enum_object.dfy` models each compiled IIFE as a
  class whose `forward`/`reverse` maps are written in place, two writes per
  numeric member. Every builder is proved to produce exactly the object the
  declaration compiles to. The same file holds `printImportant`.
- **Basic types.** `basic_types.dfy`: the `Weekday`, `Color` and `LoadingStatus`
  enums, `error`, `fail`, `checkNumber`, and the out-of-bounds array read.
- **Advanced types.** `advanced_types.dfy`:
  - the `extend` mixin as a method with two `for...in` loops;
  - `padLeft` and the two padders;
  - the `isFish` and `in` type guards and the calls they choose;
  - the null guards `f`, `f1`, `fixed` and `broken`.
- **Functions.** `functions.dfy`: `add`, `pow` (a `reduce` over y elements),
  `log` (`join(', ')`), `buildName`, and the overloaded `reverse`.
- **Generics.** `generic.dfy`: `identity`, `loggingIdentity`, `swap`,
  `getTuple`, `getProperty`, and the class `MyIterator` with its
  pre-incrementing `next`.
- **Variable declarations.** `variable_declaration.dfy`:
  - `sumMatrix`, whose two nested loops share one `var i`;
  - array destructuring (swap, rest, holes);
  - the `b = 1001` destructuring default;
  - the `{...someObj, a: 8}` spread override.
- **Classes.** `classes.dfy`:
  - `Point`, `Teacher` and `Octopus` constructors;
  - `move` with the per-class default distances;
  - the `C.buildCFactory` singleton;
  - the key order of `User` and `D`;
  - the length-checked `Employee.fullName` setter.
- **Interfaces.** `interfaces.dfy`: `createSquare`, `search`, `getCounter`,
  and the readonly array cast followed by `push`.

`js_values.dfy` holds the JavaScript runtime the snippets rely on:
- values, truthiness, `typeof` and `||`;
- `String(n)`, and `Number(s)` for digit strings;
- the array-length RangeError, and `Array(n).join(' ')`.

Numbers are exact integers. An exception is a `Throw` result, and console
output is modelled as the list of lines printed.

Several files come in twins: `src/` and `notes/`, or `.ts` and its compiled
`.js`. One Dafny member serves both. Its row below cites the file the member
follows most closely, and names the twin's lines in the third column.

Where a comment and the code disagree, the model follows the code. At
`src/handbook/Enums/index.ts:71` and `src/handbook/Enums/index.js:67`, the
comment says `Season[0]` is "Spring". The member is declared `SPRING`, so
the reverse lookup gives "SPRING" (`Enums.SeasonValues`).

## Model

| member | source | states |
|---|---|---|
| `JsValues.Or` | notes/handbook/AdvancedTypes/index.ts:211-213 | the logical or of a and b is a exactly when a is truthy, and b otherwise |
| `JsValues.ReadIndex` | notes/handbook/BasicType/index.ts:54-55 | an array read yields an element exactly when the index is in bounds, and that element is the one at the index; out of bounds it reads undefined rather than failing |
| `JsValues.SpaceJoin` | src/handbook/AdvancedTypes/index.ts:52 | `Array(n).join(' ')` succeeds exactly for 0 <= n <= 2^32 - 1, giving n - 1 spaces (none for 0); any other length throws `RangeError("Invalid array length")` |
| `JsValues.ParseDecimalString` | notes/handbook/Function/index.ts:177 | `Number(String(n))` gives back n for every non-negative integer |
| `JsValues.DecimalStringParse` | notes/handbook/Function/index.ts:177 | `String(Number(s))` gives back s for every digit string without leading zeros |
| `Enums.ForwardLastWrite` | src/handbook/Enums/index.ts:51-62 | after the compiled writes, a name's forward entry holds the value of the last write to that name |
| `Enums.ReverseLastWrite` | src/handbook/Enums/index.ts:51-62 | a number's reverse entry holds the name of the last member written with that number (last write wins; the same in src/handbook/Enums/index.js:59-60) |
| `Enums.StringWritesKeepReverse` | src/handbook/Enums/index.ts:120-127 | string-valued writes leave the reverse (value to name) part untouched |
| `Enums.AssignPrefix` | src/handbook/Enums/index.ts:65 | members are numbered left to right: the values of an accepted declaration's first k members are those its first k members get on their own |
| `Enums.NextValueRules` | src/handbook/Enums/index.ts:65 | an uninitialised first member is 0; an uninitialised later member is the previous numeric value + 1, and is refused after a string or computed member; a constant initialiser is its folded expression; a string member is its literal |
| `Enums.AssignedValue` | src/handbook/Enums/index.ts:65 | for every member of an accepted declaration: its name is new; its value follows the numbering rule for its initialiser, stated against the earlier members' values |
| `Enums.CompileForward` | src/handbook/Enums/index.ts:51-63 | in the compiled object, each member's forward entry is the value it was assigned |
| `Enums.CompileForwardKeys` | src/handbook/Enums/index.ts:61-62 | the forward keys of the compiled object are exactly the member names |
| `Enums.CompileReverse` | src/handbook/Enums/index.ts:70-71 | a numeric value reads back the name of the last member holding it |
| `Enums.CompileReverseKeys` | src/handbook/Enums/index.ts:61-62 | the reverse keys are exactly the numeric values some member holds |
| `Enums.StringEnumHasNoReverse` | src/handbook/Enums/index.ts:132-134 | an all-string enum has no value-to-name entries at all |
| `Enums.CompileIsFold` | src/handbook/Enums/index.ts:51-59 | the compiled object is the single left-to-right pass that numbers each member and applies its writes |
| `Enums.Accepts` | src/handbook/Enums/index.ts:51-59 | a list of writes that the member-by-member replay accepts is the declaration's assignment, and the replay's object is its compiled object |
| `Enums.SeasonValues` | src/handbook/Enums/index.ts:43-71 | SPRING, SUMMER, AUTUMN and WINTER are 0, 1, 2 and 3, and `Season[0]` is "SPRING" (the same in src/handbook/Enums/index.js:41-67) |
| `Enums.DaysValues` | src/handbook/Enums/index.ts:73-82 | `Sun = 1` restarts the count: Mon is 2, Sat is 7 (the same in src/handbook/Enums/index.js:68-78) |
| `Enums.DuplicateDaysValues` | src/handbook/Enums/index.ts:84-100 | Sun and Wed are both 3, and `Days[3]` is "Wed", not "Sun" |
| `Enums.PromiseStatusValues` | src/handbook/Enums/index.ts:114-134 | Rejected is "rejected"; "pending" is not a key; there are no reverse entries |
| `Enums.ConstantEnumMemberValues` | src/handbook/Enums/index.ts:139-144 | FIRST is 0, SECOND is 1, and `THIRD = FIRST + SECOND` folds to 1, so the value 1 reads back "THIRD" |
| `Enums.ComputedEnumMemberValues` | src/handbook/Enums/index.ts:147-149 | `FIRST = 'abcd'.length` is 4, and 4 reads back "FIRST" |
| `Enums.LogLevelValues` | src/handbook/Enums/index.ts:156-164 | ERROR, WARN, INFO and DEBUG are 0 to 3, and these four are exactly the keys the enum has (`keyof typeof LogLevel`) |
| `Enums.PrintImportantKeys` | src/handbook/Enums/index.ts:166-174 | printImportant prints exactly for the keys ERROR and WARN (value <= WARN), and then prints the key, the value (0 or 1) and the message |
| `EnumObjects.EnumTable.constructor` | src/handbook/Enums/index.js:41-42 | each IIFE starts its enum from a fresh empty object |
| `EnumObjects.EnumTable.SetNumber` | src/handbook/Enums/index.js:43 | `obj[obj[name] = n] = name` sets the forward entry of name to n and the reverse entry of n to name, and changes nothing else |
| `EnumObjects.EnumTable.SetString` | src/handbook/Enums/index.js:110 | a string member sets its forward entry only; the reverse part is unchanged |
| `EnumObjects.EnumTable.Get` | src/handbook/Enums/index.js:63-65 | `E.name` reads the forward entry, absent for a name that is not a member |
| `EnumObjects.EnumTable.NameOf` | src/handbook/Enums/index.js:67 | `E[n]` reads the reverse entry |
| `EnumObjects.BuildSeason` | src/handbook/Enums/index.js:41-47 | the compiled IIFE builds exactly the object the Season declaration (src/handbook/Enums/index.ts:43-48) compiles to |
| `EnumObjects.BuildDays` | src/handbook/Enums/index.js:68-77 | the compiled IIFE builds exactly the object the Days declaration (src/handbook/Enums/index.ts:73-81) compiles to |
| `EnumObjects.BuildDuplicateDays` | src/handbook/Enums/index.js:79-90 | the inner Days IIFE builds exactly the object its declaration (src/handbook/Enums/index.ts:86-94) compiles to |
| `EnumObjects.DuplicateDaysComparisons` | src/handbook/Enums/index.js:91-94 | the four comparisons print true, true, false, true |
| `EnumObjects.BuildPromiseStatus` | src/handbook/Enums/index.js:108-113 | the string enum IIFE builds the compiled PromiseStatus object, with no value-keyed entries |
| `EnumObjects.BuildConstantEnumMember` | src/handbook/Enums/index.js:130-136 | the IIFE with THIRD written as the folded 1 builds the compiled ConstantEnumMember object, and 1 reads back "THIRD" |
| `EnumObjects.BuildComputedEnumMember` | src/handbook/Enums/index.js:138-141 | the IIFE writing `'abcd'.length` builds the compiled ComputedEnumMember object |
| `EnumObjects.BuildLogLevel` | src/handbook/Enums/index.js:146-152 | the IIFE builds the compiled LogLevel object |
| `EnumObjects.PrintImportantOn` | src/handbook/Enums/index.js:153-161 | looking the key up in the built LogLevel table prints what printImportant prints: lines exactly for ERROR and WARN |
| `BasicTypes.WeekdayValues` | notes/handbook/BasicType/index.ts:76-95 | Weekday counts from 0, so Monday is 1 and Tuesday is 2 |
| `BasicTypes.ColorValues` | notes/handbook/BasicType/index.ts:98-107 | after `Red = 2, Green = 4`, Blue is 5 (previous + 1); `Color[4]` is "Green" and `Color[2]` is "Red" |
| `BasicTypes.LoadingStatusValues` | notes/handbook/BasicType/index.ts:120-126 | duplicate values are accepted: INITIAL and LOADING are both 0, ERROR is -1, and 0 reads back the later "LOADING" |
| `BasicTypes.RaiseError` | notes/handbook/BasicType/index.ts:167-169 | `error(message)` never returns normally: it always throws an Error carrying message |
| `BasicTypes.Fail` | notes/handbook/BasicType/index.ts:172-174 | `fail()` always throws `Error("Something failed")` |
| `BasicTypes.CheckNumber` | notes/handbook/BasicType/index.ts:181-189 | true exactly for a number, false exactly for a string, and for anything else it throws `Error("Failure")` |
| `BasicTypes.ForeverOutOfBounds` | notes/handbook/BasicType/index.ts:51-55 | `forever[100]` reads undefined while `forever[3]` is 4 |
| `AdvancedTypes.Extend` | src/handbook/AdvancedTypes/index.js:7-21 | the result's keys are the union of both inputs' enumerable own keys; on a shared key second's value wins; a key only in first keeps first's value (the same loops in src/handbook/AdvancedTypes/index.ts:8-22 and notes/handbook/AdvancedTypes/index.ts:9-23) |
| `AdvancedTypes.ExtendIsUnion` | src/handbook/AdvancedTypes/index.ts:11-20 | whatever satisfies extend's contract is the right-biased union of the two enumerable-own maps |
| `AdvancedTypes.ExtendJim` | src/handbook/AdvancedTypes/index.ts:38-39 | `extend(new Person('Jim'), ConsoleLogger.prototype)` has only name "Jim": the non-enumerable prototype method `log` is not copied |
| `AdvancedTypes.ExtendMixin` | src/handbook/AdvancedTypes/index.ts:42-43 | the mixin of `{name: 'ly'}` and `{age: 21}` has both fields, and the template prints "ly is 21 years old this year" (the same in src/handbook/AdvancedTypes/index.js:35-36) |
| `AdvancedTypes.MixinLine` | notes/handbook/AdvancedTypes/index.ts:43-44 | the template literal over name 'ly' and age 21 is "ly is 21 years old this year" |
| `AdvancedTypes.PadLeft` | src/handbook/AdvancedTypes/index.ts:49-61 | a number n gives n spaces then the value; a length Array refuses throws the RangeError; a string p gives p then the value; any other padding throws the Error naming it (the same in src/handbook/AdvancedTypes/index.js:41-51 and notes/handbook/AdvancedTypes/index.ts:50-62) |
| `AdvancedTypes.PadLeftExample` | src/handbook/AdvancedTypes/index.ts:63 | `padLeft('Hello world', 4)` is four spaces then "Hello world" |
| `AdvancedTypes.GetPaddingString` | notes/handbook/AdvancedTypes/index.ts:130-142 | SpaceRepeatingPadder(n) gives n spaces, or the RangeError for a length Array refuses; StringPadder(s) gives s unchanged (the same in src/handbook/AdvancedTypes/index.ts:129-141) |
| `AdvancedTypes.PadLeftIsPadder` | notes/handbook/AdvancedTypes/index.ts:50-62 | padLeft of a number or a string is the padding string of the matching padder (`SpaceRepeatingPadder` or `StringPadder`, lines 130-142 of the same file) followed by the value |
| `AdvancedTypes.IsFishVersusIn` | notes/handbook/AdvancedTypes/index.ts:92-95 | isFish holds exactly when pet has a swim property that is not undefined; the `in` guard holds whenever isFish does (the same in src/handbook/AdvancedTypes/index.ts:91-94 and src/handbook/AdvancedTypes/index.js:64-67) |
| `AdvancedTypes.Invoke` | notes/handbook/AdvancedTypes/index.ts:100 | calling a property succeeds exactly when it holds a function; otherwise it throws a TypeError |
| `AdvancedTypes.TypePredicates1` | notes/handbook/AdvancedTypes/index.ts:97-105 | calls swim when isFish holds and layEggs otherwise (the same in src/handbook/AdvancedTypes/index.js:68-77) |
| `AdvancedTypes.TypePredicates2` | notes/handbook/AdvancedTypes/index.ts:109-117 | calls swim when `'swim' in pet` holds and layEggs otherwise |
| `AdvancedTypes.GuardsDiffer` | notes/handbook/AdvancedTypes/index.ts:97-117 | the two guards choose differently only for a pet that has swim with the value undefined; such a pet exists, and the `in` guard then throws |
| `AdvancedTypes.F` | notes/handbook/AdvancedTypes/index.ts:201-208 | 'default' exactly for null, otherwise sn unchanged |
| `AdvancedTypes.F1` | notes/handbook/AdvancedTypes/index.ts:211-213 | 'default' for null and for '' (both falsy), otherwise sn unchanged |
| `AdvancedTypes.FVersusF1` | notes/handbook/AdvancedTypes/index.ts:201-213 | f and f1 disagree exactly on the empty string |
| `AdvancedTypes.Fixed` | notes/handbook/AdvancedTypes/index.ts:226-233 | the first character of name, or of 'Bob' when name is null or empty, followed by ".  the great" |
| `AdvancedTypes.Broken` | notes/handbook/AdvancedTypes/index.ts:216-224 | always returns the empty string, whatever name is |
| `Functions.Add` | notes/handbook/Function/index.ts:23-25 | the result minus operand2 is operand1 (the same in src/handbook/Function/index.js:19-21) |
| `Functions.AddCommutes` | notes/handbook/Function/index.ts:23-25 | add gives the same result with its operands swapped |
| `Functions.MultiplyRepeatedlyIsPower` | notes/handbook/Function/index.ts:31 | the `reduce(product => product * x, acc)` over n elements is acc times x to the n |
| `Functions.Pow` | notes/handbook/Function/index.ts:30-32 | with y defaulting to 2, pow is x to the y for 0 <= y <= 2^32 - 1; it is 1 for negative y (the array is empty); an array length over 2^32 - 1 throws the RangeError (the same in src/handbook/Function/index.js:25-28) |
| `Functions.PowExample` | notes/handbook/Function/index.ts:33 | `pow(4)` is 16 |
| `Functions.PowerAdd` | notes/handbook/Function/index.ts:30-32 | pow with y = a + b is the product of pow with a and pow with b |
| `Functions.JoinAppend` | notes/handbook/Function/index.ts:57 | joining two non-empty lists is joining each, with the separator between |
| `Functions.JoinLength` | notes/handbook/Function/index.ts:57 | a join's length is the parts' total length plus one separator per gap |
| `Functions.Log` | notes/handbook/Function/index.ts:56-58 | `parts.join(', ')`: empty for no parts, else the parts' total length plus 2 per gap (the same in src/handbook/Function/index.js:49-52) |
| `Functions.LogSingle` | notes/handbook/Function/index.ts:56-58 | log of one part prints exactly that part |
| `Functions.LogAppend` | notes/handbook/Function/index.ts:56-58 | log of two non-empty runs of parts is the two lines joined by ", "; with `LogSingle` this pins down the whole line |
| `Functions.LogPlacement` | notes/handbook/Function/index.ts:56-58 | part i sits in the line after the earlier parts and 2 characters per earlier gap, and ", " follows every part but the last |
| `Functions.JoinPlacement` | notes/handbook/Function/index.ts:57 | `join(sep)` holds part i after the earlier parts and one separator per earlier gap, and a separator after every part but the last |
| `Functions.LogExample` | notes/handbook/Function/index.ts:59 | `log('Microsoft', 'Google', 'facebook')` prints "Microsoft, Google, facebook" |
| `Functions.BuildName` | notes/handbook/Function/index.ts:38-44 | "first last" when lastName is truthy (present and non-empty), firstName alone otherwise (the same in src/handbook/Function/index.js:32-41) |
| `Functions.BuildNameIsJoin` | notes/handbook/Function/index.ts:38-44 | buildName is the space-join of firstName and the truthy lastName, if any |
| `Functions.BuildNameExamples` | notes/handbook/Function/index.ts:45-46 | `buildName('Yu', 'Tengjing')` is "Yu Tengjing" and `buildName('Luo')` is "Luo" |
| `Functions.ReverseText` | notes/handbook/Function/index.ts:179 | `split('').reverse().join('')` has the same length and holds the characters in reverse order |
| `Functions.ReverseTextTwice` | notes/handbook/Function/index.ts:178-179 | reversing a string twice gives it back |
| `Functions.Reverse` | notes/handbook/Function/index.ts:173-181 | a string is reversed; a non-negative number has the digits of `String(n)` reversed and parsed back; a negative number gives NaN; NaN gives NaN; any other value (not a number, NaN or string) falls off the end and gives undefined |
| `Functions.NegativeReversed` | notes/handbook/Function/index.ts:177 | reversed decimal text is all digits exactly when the number is non-negative (a minus sign ends up last) |
| `Functions.ReverseNumberTwice` | notes/handbook/Function/index.ts:176-177 | reversing a number twice gives it back when its last digit is not 0 |
| `Functions.ReverseExamples` | notes/handbook/Function/index.ts:173-181 | 120 reverses to 21, -12 to NaN, and "abc" to "cba" |
| `Generic.Identity` | src/handbook/Generic/generic.ts:14-16 | returns its argument unchanged |
| `Generic.LoggingIdentity` | src/handbook/Generic/generic.ts:20-23 | returns its argument unchanged, and logs the decimal text of its length |
| `Generic.Swap` | src/handbook/Generic/generic.ts:26-28 | exchanges the two components |
| `Generic.SwapTwice` | src/handbook/Generic/generic.ts:26-28 | swapping twice gives the tuple back |
| `Generic.SwapExample` | src/handbook/Generic/generic.ts:30 | `swap([7, 'seven'])` is `['seven', 7]` |
| `Generic.GetTuple` | src/handbook/Generic/generic.ts:34-36 | `getTuple(x, y)` is `[x, y]` |
| `Generic.SwapGetTuple` | src/handbook/Generic/generic.ts:26-36 | swapping `getTuple(x, y)` is `getTuple(y, x)` |
| `Generic.GetProperty` | src/handbook/Generic/generic.ts:143-145 | for a key of obj (`K extends keyof T`), the property stored under it |
| `Generic.GetPropertyExample` | src/handbook/Generic/generic.ts:147-148 | `getProperty({a: 1, b: 2, c: 3, d: 4}, 'a')` is 1 |
| `Generic.MyIterator.constructor` | src/handbook/Generic/generic.ts:85-96 | a new iterator has size 0, index -1, and the constructor's own array as elements |
| `Generic.MyIterator.Next` | src/handbook/Generic/generic.ts:98-100 | increments index first, then returns the element at the new index (undefined past the end); elements and size are unchanged |
| `Generic.IteratorExample` | src/handbook/Generic/generic.ts:103-104 | on `['a', 'b', 'c']`, successive calls return 'a', 'b', 'c', then undefined |
| `VariableDeclaration.SumMatrix` | src/handbook/VariableDeclaration/index.ts:12-23 | the nested loops sharing one `i` compute the value of the round-by-round description: each round sums one row, and the next row index is that row's length + 1 |
| `VariableDeclaration.SumMatrixExample` | src/handbook/VariableDeclaration/index.ts:25-26 | `sumMatrix([[1, 2, 3], [4, 5, 6]])` is 6 |
| `VariableDeclaration.SumMatrixEmpty` | src/handbook/VariableDeclaration/index.ts:13-14 | an empty matrix sums to 0 |
| `VariableDeclaration.FirstRowOnly` | src/handbook/VariableDeclaration/index.ts:24 | when the first row has at least as many elements as there are other rows, only the first row is summed |
| `VariableDeclaration.RoundsMonotone` | src/handbook/VariableDeclaration/index.ts:14-20 | once the loops halt within a number of rounds, allowing more rounds changes nothing |
| `VariableDeclaration.SumMatrixLoopsForever` | src/handbook/VariableDeclaration/index.ts:14-20 | on `[[], []]` the loops never halt: they revisit row 1 forever |
| `VariableDeclaration.DestructuringSwap` | src/handbook/VariableDeclaration/index.ts:120-124 | `[first, second] = [second, first]` exchanges the two values |
| `VariableDeclaration.RestDestructuring` | src/handbook/VariableDeclaration/index.ts:137 | `[firstEle, ...rest]`: the first element (undefined for an empty array) and the rest, which put together give back the array |
| `VariableDeclaration.RestExample` | src/handbook/VariableDeclaration/index.ts:137-138 | on `[1, 2, 3, 4]`, the rest is `[2, 3, 4]` |
| `VariableDeclaration.HolesDestructuring` | src/handbook/VariableDeclaration/index.ts:141 | `[, , third, , fifth]` binds the elements at indices 2 and 4 |
| `VariableDeclaration.HolesExample` | src/handbook/VariableDeclaration/index.ts:141-142 | on `[1, 2, 3, 4, 5, 6]`, third is 3 and fifth is 5 |
| `VariableDeclaration.KeepWholeObject` | src/handbook/VariableDeclaration/index.ts:185-188 | a is the property a; b is 1001 when the property b reads undefined, and the property b otherwise |
| `VariableDeclaration.DefaultOnlyForUndefined` | src/handbook/VariableDeclaration/index.ts:186-187 | the default replaces a missing or undefined b, but keeps null and 0 |
| `VariableDeclaration.SpreadOverride` | src/handbook/VariableDeclaration/index.ts:215 | `{...someObj, a: 8}` has the old keys plus a; a is 8; every other key keeps its value |
| `VariableDeclaration.SpreadExample` | src/handbook/VariableDeclaration/index.ts:205-216 | the override of `{a: 1, b: 2}` is `{a: 8, b: 2}` |
| `Classes.OrderedObject.Set` | notes/handbook/Class/index.ts:248-251 | writing a new non-index key appends it to the key order, rewriting a key keeps the order; the value map gets the new entry |
| `Classes.NewUser` | notes/handbook/Class/index.ts:246-251 | the parameter properties make own keys id, name, age in that order, holding the arguments |
| `Classes.NewD` | notes/handbook/Class/index.ts:287-297 | a D instance has the single own key `_state`; the getter adds none |
| `Classes.Point.constructor` | notes/handbook/Class/index.ts:25-29 | x and y are the arguments, and color is not set |
| `Classes.PointExample` | notes/handbook/Class/index.ts:38-40 | `new Point(0, 0).draw()` prints "draw a point which coordinate is (0, 0)", and `'color' in point` is false |
| `Classes.Teacher.constructor` | notes/handbook/Class/index.ts:64-81 | a Teacher inherits name 'default name' from People, and title is not set |
| `Classes.Octopus.constructor` | notes/handbook/Class/index.ts:227-238 | name is the argument and numberOfLegs is 8 |
| `Classes.Animal.constructor` | notes/handbook/Class/index.ts:87-89 | name is the argument |
| `Classes.Animal.Move` | notes/handbook/Class/index.ts:85-117 | the last line is "<name> moved <d>m.", with d defaulting to 0 for Animal, 5 for Snake and 45 for Horse; Snake first prints "Slithering...", Horse first prints "Galloping..." |
| `Classes.MoveExamples` | notes/handbook/Class/index.ts:119-124 | `sam.move()` prints "Sammy the Python moved 5m." and `tom.move(34)` prints "Tommy the Palomino moved 34m.", each after the subclass line |
| `Classes.CStatics.BuildCFactory` | notes/handbook/Class/index.ts:193-207 | the first call creates a fresh instance and stores it; every later call returns the stored instance |
| `Classes.SingletonExample` | notes/handbook/Class/index.ts:211 | two calls of buildCFactory return the same instance |
| `Classes.Employee.constructor` | notes/handbook/Class/index.ts:262-263 | a new Employee has no `_fullName` |
| `Classes.Employee.GetFullName` | notes/handbook/Class/index.ts:267-269 | the getter returns the stored `_fullName` |
| `Classes.Employee.SetFullName` | notes/handbook/Class/index.ts:271-277 | throws exactly for a name longer than 10 characters, with "fullName has a max length of 10" and `_fullName` unchanged; otherwise stores the name |
| `Classes.EmployeeExample` | notes/handbook/Class/index.ts:280-284 | 'Bob Smith' is stored and read back; a longer name is refused and 'Bob Smith' kept |
| `Interfaces.CreateSquare` | src/handbook/Interface/index.ts:43-53 | the color is always 'white' (config.color is never copied); area is width times width for a truthy width, and 100 when width is absent or 0 (the same in notes/handbook/Interface/index.ts:46-56) |
| `Interfaces.CreateSquareExamples` | src/handbook/Interface/index.ts:55-84 | `createSquare({color: 'black'})` is white with area 100; width 100 gives area 10000 |
| `Interfaces.IncludesFrom` | src/handbook/Interface/index.ts:96 | includes from position i holds exactly when sub occurs at some position at or after i |
| `Interfaces.Search` | src/handbook/Interface/index.ts:93-97 | true exactly when sub occurs in source (the same in notes/handbook/Interface/index.ts:101-105) |
| `Interfaces.SearchBounds` | src/handbook/Interface/index.ts:93-97 | the empty string is always found, and a sub longer than source never is |
| `Interfaces.Counter.constructor` | src/handbook/Interface/index.ts:253 | the bare function object has neither interval nor reset |
| `Interfaces.Counter.Call` | src/handbook/Interface/index.ts:253 | calling the counter returns undefined (its body is empty) |
| `Interfaces.GetCounter` | src/handbook/Interface/index.ts:252-257 | returns a fresh counter with interval 123 and a function as reset (the same in notes/handbook/Interface/index.ts:261-266) |
| `Interfaces.JsArray.Push` | src/handbook/Interface/index.ts:71 | push appends the element in place and returns the new length |
| `Interfaces.ReadonlyCastPush` | src/handbook/Interface/index.ts:67-72 | the cast array is the readonly array itself, so after pushing 4 both read `[1, 2, 3, 4]` (the same in notes/handbook/Interface/index.ts:70-77) |

## Left out

- Compile-time typing is not modelled: structural compatibility, narrowing, excess-property checks, inference, private and readonly checks, and the commented-out compiler errors. That includes src/handbook/TypeCompatibility/index.ts and src/handbook/TypeInference/index.ts. They describe the type checker, not the running code.
- Console output is modelled as the returned lines, or as the value logged, where the snippet's point is what it prints. Logging that only announces something (`'create a point'`, `ConsoleLogger.log`, `eat`/`teach`/`run`) is not modelled.
- The `setTimeout` loops in src/handbook/VariableDeclaration/index.ts are timer behaviour and are not modelled.
- Functions that depend on the clock or on randomness are not modelled: `getRandomPadder`, the card picker, and `getDate`.
- Floating point is not modelled: numbers are exact integers. This leaves out:
  - the fractional `Direction` enum (`SOUTH = 0.5`);
  - `Math.sqrt` in `Grid` and `Math.pow` in the advanced-types notes;
  - the `c.interval = 5.0` write;
  - `reverse` on a fractional number;
  - `NaN` as an array length beyond the RangeError it causes.
- `Functions.Add`: exact integer addition; IEEE double rounding is not modelled.
- `Interfaces.CreateSquare`: width is an integer, so a NaN width (falsy, like 0) is not covered.
- `VariableDeclaration.SumMatrix`: proved for matrices on which the loops halt within a given number of rounds, since some matrices make them loop forever. `VariableDeclaration.SumMatrixLoopsForever` states such an input.
- `Enums.PrintImportant`: lines are returned instead of written to the console. The console's spacing of its two arguments is modelled as one space.
- The following are not modelled:
  - const enums (`BigFactory`) and ambient enums (`Aligns`); the compiler inlines them or emits nothing for them;
  - `keyof` types;
  - the `me[0]` tuple write and `infiniteLoop`; the latter never returns, and its only property is a type.
- Class plumbing is not modelled:
  - prototype plumbing: `__extends`, `Object.setPrototypeOf`, src/handbook/Class/index.js;
  - virtual dispatch, for which subclasses are a `Species` tag on one `Animal` class;
  - decorators and property descriptors;
  - `Department` and the abstract classes of the class notes.
- Modules and namespaces (src/handbook/ModuleAndNamespace), JSX (src/handbook/JSX/index.tsx) and src/handbook/Module/global/global1.ts are not part of this model.
- The shallow-copy aliasing of `{...deepObj}` is not modelled. Neither are object destructuring with renames, `restProps`, or the destructured function parameters, which carry no runtime logic beyond the array and default cases modelled.
- Value objects (`JsObject`, the result of `extend`, the spread) are immutable maps, not heap objects, so aliasing between them is not captured. Neither is their key order: the order in which `for...in` copies keys in `extend`, and the order in which a spread such as `{ a: 8, b: 2 }` prints. Only the classes, `MyIterator`'s array and the pushed array are heap state.
- Strings are sequences of Unicode scalar values, not of UTF-16 code units as in JavaScript. `.length`, `split('')` and `charAt(0)` therefore agree with the source only for text inside the Basic Multilingual Plane. The members affected:
  - `Classes.Employee.SetFullName`: the 10-character limit counts scalar values, so six emoji (12 code units, which the source rejects) are accepted.
  - `Functions.ReverseText`: an astral character is reversed as one unit, while `split('')` splits its surrogate pair and the reversal swaps the halves.
  - `Functions.Reverse`: its string branch is `Functions.ReverseText`, with the same difference.
  - `AdvancedTypes.Fixed`: the first character of a name that starts with an emoji is the whole emoji, while `charAt(0)` gives its lone high surrogate.
- `c(10)` is `Interfaces.Counter.Call`; the `c.reset()` call and the `c.interval = 5.0` write are not modelled.
- `Classes.OrderedObject.Set`: keys always go to the end of the order in insertion order. JavaScript lists array-index keys (canonical decimal strings below 2^32 - 1, such as "0" or "1") first, in ascending numeric order, so `Set("b", v)` then `Set("1", v)` gives ["1", "b"] there but ["b", "1"] here. The objects of the class notes only use non-index keys (`id`, `name`, `age`, `_state`).
