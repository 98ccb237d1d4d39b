/** The functions of notes/handbook/Function/index.ts and their compiled
    twin src/handbook/Function/index.js: `add`, `pow` by `reduce`, the
    optional parameter of `buildName`, the rest parameter of `log`, and the
    overloaded `reverse`. */
module Functions {
  import opened JsValues

  /** `add(operand1, operand2)`. */
  function Add(operand1: int, operand2: int): (r: int)
    ensures r - operand2 == operand1
  {
    operand1 + operand2
  }

  lemma AddCommutes(a: int, b: int)
    ensures Add(a, b) == Add(b, a)
  {
  }

  // ---------------------------------------------------------------------
  // pow

  /** x to the power n. */
  function Power(x: int, n: nat): int {
    if n == 0 then 1 else x * Power(x, n - 1)
  }

  /** `reduce(product => product * x, acc)` over n elements: acc multiplied
      by x, n times, from the left. */
  function MultiplyRepeatedly(x: int, n: nat, acc: int): int {
    if n == 0 then acc else MultiplyRepeatedly(x, n - 1, acc * x)
  }

  lemma {:induction false} MultiplyRepeatedlyIsPower(x: int, n: nat, acc: int)
    ensures MultiplyRepeatedly(x, n, acc) == acc * Power(x, n)
  {
    if n > 0 {
      MultiplyRepeatedlyIsPower(x, n - 1, acc * x);
      PowerSucc(x, n - 1);
    }
  }

  lemma {:induction false} PowerSucc(x: int, n: nat)
    ensures Power(x, n + 1) == Power(x, n) * x
  {
    if n > 0 {
      PowerSucc(x, n - 1);
    }
  }

  /** `pow(x, y = 2)`: `Array.from({ length: y })` has y elements (none for
      a negative y, whose length clamps to 0, and a RangeError for a length
      past 2^32 - 1), and `reduce` starting at 1 multiplies by x once per
      element. The default applies only when y is omitted (None). */
  function Pow(x: int, y: Option<int>): (r: Result<int>)
    ensures var n := if y.None? then 2 else y.value;
      && (0 <= n <= MaxArrayLength ==> r == Ok(Power(x, n)))
      && (n < 0 ==> r == Ok(1))
      && (n > MaxArrayLength ==> r == Throw(InvalidArrayLength))
  {
    var length := if y.None? then 2 else y.value;
    var n := if length < 0 then 0 else length;
    if !ValidArrayLength(n) then Throw(InvalidArrayLength)
    else
      MultiplyRepeatedlyIsPower(x, n, 1);
      Ok(MultiplyRepeatedly(x, n, 1))
  }

  /** `pow(4)` is 16. */
  lemma PowExample()
    ensures Pow(4, None) == Ok(16)
  {
    assert Power(4, 2) == 16;
  }

  /** Exponents add: pow(x, a + b) is pow(x, a) * pow(x, b). */
  lemma {:induction false} PowerAdd(x: int, a: nat, b: nat)
    ensures Power(x, a + b) == Power(x, a) * Power(x, b)
  {
    if a > 0 {
      PowerAdd(x, a - 1, b);
    }
  }

  // ---------------------------------------------------------------------
  // buildName and log

  /** `parts.join(sep)`. */
  function Join(parts: seq<string>, sep: string): string
    decreases |parts|
  {
    if parts == [] then ""
    else if |parts| == 1 then parts[0]
    else Join(parts[..|parts| - 1], sep) + sep + parts[|parts| - 1]
  }

  /** Joining two non-empty lists puts one separator between their joins. */
  lemma {:induction false} JoinAppend(a: seq<string>, b: seq<string>, sep: string)
    requires a != [] && b != []
    ensures Join(a + b, sep) == Join(a, sep) + sep + Join(b, sep)
    decreases |b|
  {
    var ab := a + b;
    if |b| == 1 {
      assert ab[..|ab| - 1] == a;
    } else {
      var b' := b[..|b| - 1];
      assert ab[..|ab| - 1] == a + b';
      JoinAppend(a, b', sep);
      assert Join(b, sep) == Join(b', sep) + sep + b[|b| - 1];
    }
  }

  /** The length of a join: the parts plus one separator between any two. */
  lemma {:induction false} JoinLength(parts: seq<string>, sep: string, total: nat)
    requires parts != []
    requires total == SumLengths(parts)
    ensures |Join(parts, sep)| == total + (|parts| - 1) * |sep|
    decreases |parts|
  {
    if |parts| > 1 {
      var p := parts[..|parts| - 1];
      JoinLength(p, sep, SumLengths(p));
    }
  }

  function SumLengths(parts: seq<string>): nat
    decreases |parts|
  {
    if parts == [] then 0 else SumLengths(parts[..|parts| - 1]) + |parts[|parts| - 1]|
  }

  /** `log(...parts)` prints `parts.join(', ')`. */
  function Log(parts: seq<string>): (line: string)
    ensures parts == [] ==> line == ""
    ensures parts != [] ==> |line| == SumLengths(parts) + 2 * (|parts| - 1)
  {
    if parts == [] then ""
    else
      JoinLength(parts, ", ", SumLengths(parts));
      Join(parts, ", ")
  }

  lemma LogExample()
    ensures Log(["Microsoft", "Google", "facebook"]) == "Microsoft, Google, facebook"
  {
    var parts := ["Microsoft", "Google", "facebook"];
    assert parts[..2] == ["Microsoft", "Google"] && parts[..2][..1] == ["Microsoft"];
    assert Join(parts, ", ") == "Microsoft" + ", " + "Google" + ", " + "facebook";
  }

  /** `s` holds `part` at offset `off`. */
  predicate PartAt(s: string, part: string, off: int)
  {
    0 <= off && off + |part| <= |s| && s[off..off + |part|] == part
  }

  /** Where a join puts part i: after the earlier parts and one separator
      per earlier gap. */
  function Offset(parts: seq<string>, sep: string, i: int): int
    requires 0 <= i <= |parts|
  {
    SumLengths(parts[..i]) + i * |sep|
  }

  /** What `x` holds, `x + y` holds at the same place. */
  lemma PartAtPrefix(x: string, y: string, part: string, off: int)
    requires PartAt(x, part, off)
    ensures PartAt(x + y, part, off)
  {
    assert (x + y)[off..off + |part|] == x[off..off + |part|];
  }

  /** `x + y` holds `y` right after `x`. */
  lemma PartAtSuffix(x: string, y: string)
    ensures PartAt(x + y, y, |x|)
  {
    assert (x + y)[|x|..|x| + |y|] == y;
  }

  /** A join holds every part at its offset, and a separator after every part
      but the last. */
  lemma {:induction false} JoinPlacement(parts: seq<string>, sep: string, i: int)
    requires 0 <= i < |parts|
    ensures PartAt(Join(parts, sep), parts[i], Offset(parts, sep, i))
    ensures i < |parts| - 1 ==> PartAt(Join(parts, sep), sep, Offset(parts, sep, i) + |parts[i]|)
    decreases |parts|
  {
    if |parts| == 1 {
      assert parts[..0] == [];
      assert Join(parts, sep)[0..|parts[0]|] == parts[0];
    } else {
      var p := parts[..|parts| - 1];
      var last := parts[|parts| - 1];
      var jp := Join(p, sep);
      assert Join(parts, sep) == (jp + sep) + last;
      JoinLength(p, sep, SumLengths(p));
      if i == |parts| - 1 {
        assert parts[..i] == p;
        assert i * |sep| == (i - 1) * |sep| + |sep|;
        PartAtSuffix(jp + sep, last);
      } else {
        JoinPlacement(p, sep, i);
        assert p[..i] == parts[..i] && p[i] == parts[i];
        assert Offset(p, sep, i) == Offset(parts, sep, i);
        PartAtPrefix(jp, sep, parts[i], Offset(parts, sep, i));
        PartAtPrefix(jp + sep, last, parts[i], Offset(parts, sep, i));
        if i < |p| - 1 {
          PartAtPrefix(jp, sep, sep, Offset(parts, sep, i) + |parts[i]|);
          PartAtPrefix(jp + sep, last, sep, Offset(parts, sep, i) + |parts[i]|);
        } else {
          assert p[..|p| - 1] == parts[..i];
          assert Offset(parts, sep, i) + |parts[i]| == |jp|;
          PartAtSuffix(jp, sep);
          PartAtPrefix(jp + sep, last, sep, |jp|);
        }
      }
    }
  }

  /** log of a single part prints that part. */
  lemma LogSingle(part: string)
    ensures Log([part]) == part
  {
  }

  /** log of two non-empty runs of parts prints the two lines with ", " between. */
  lemma LogAppend(a: seq<string>, b: seq<string>)
    requires a != [] && b != []
    ensures Log(a + b) == Log(a) + ", " + Log(b)
  {
    JoinAppend(a, b, ", ");
  }

  /** In log's line, part i sits after the earlier parts and their ", "
      separators, and ", " follows every part but the last. */
  lemma LogPlacement(parts: seq<string>, i: int)
    requires 0 <= i < |parts|
    ensures PartAt(Log(parts), parts[i], SumLengths(parts[..i]) + 2 * i)
    ensures i < |parts| - 1 ==> PartAt(Log(parts), ", ", SumLengths(parts[..i]) + 2 * i + |parts[i]|)
  {
    JoinPlacement(parts, ", ", i);
  }

  /** `buildName(firstName, lastName?)`: "first last" when lastName is
      truthy (given and not empty), firstName alone otherwise. */
  function BuildName(firstName: string, lastName: Option<string>): (r: string)
    ensures lastName.Some? && lastName.value != "" ==>
      r == firstName + " " + lastName.value
    ensures lastName.None? || lastName == Some("") ==> r == firstName
  {
    var last := if lastName.None? then Undefined else Str(lastName.value);
    if Truthy(last) then firstName + " " + last.s else firstName
  }

  /** buildName is a join with a space of the names it keeps. */
  lemma BuildNameIsJoin(firstName: string, lastName: Option<string>)
    ensures BuildName(firstName, lastName) ==
      Join(if lastName.Some? && lastName.value != "" then [firstName, lastName.value] else [firstName], " ")
  {
    if lastName.Some? && lastName.value != "" {
      assert [firstName, lastName.value][..1] == [firstName];
    }
  }

  lemma BuildNameExamples()
    ensures BuildName("Yu", Some("Tengjing")) == "Yu Tengjing"
    ensures BuildName("Luo", None) == "Luo"
  {
  }

  // ---------------------------------------------------------------------
  // The overloaded reverse

  /** `s.split('').reverse().join('')`. */
  function ReverseText(s: string): (r: string)
    ensures |r| == |s|
    ensures forall i :: 0 <= i < |s| ==> r[i] == s[|s| - 1 - i]
    decreases |s|
  {
    if s == [] then "" else [s[|s| - 1]] + ReverseText(s[..|s| - 1])
  }

  /** Reversing twice gives back the string. */
  lemma ReverseTextTwice(s: string)
    ensures ReverseText(ReverseText(s)) == s
  {
    var r := ReverseText(ReverseText(s));
    assert forall i :: 0 <= i < |s| ==> r[i] == s[i];
  }

  /** `Number(text)` for the reversed digits: a digit string parses (leading
      zeros are ignored), anything else, such as a trailing minus sign, is NaN. */
  function ParseNumber(text: string): JsValue {
    if text != [] && AllDigits(text) then Number(ParseDecimal(text)) else NaN
  }

  /** `reverse(target)`: a number has the characters of `String(target)`
      reversed and parsed back (`NaN` reads "NaN" both ways, so it stays
      `NaN`); a string is reversed; for any other value the
      function falls off its end and returns undefined. */
  function Reverse(target: JsValue): (r: JsValue)
    ensures target.Str? ==> r == Str(ReverseText(target.s))
    ensures target.Number? && target.n >= 0 ==>
      r == Number(ParseDecimal(ReverseText(DecimalString(target.n))))
    ensures target.Number? && target.n < 0 ==> r == NaN
    ensures target.NaN? ==> r == NaN
    ensures TypeOf(target) != "number" && TypeOf(target) != "string" ==> r == Undefined
  {
    match target
    case Number(n) =>
      NegativeReversed(n);
      ParseNumber(ReverseText(ToText(target)))
    case NaN => ParseNumber(ReverseText(ToText(target)))
    case Str(s) => Str(ReverseText(s))
    case _ => Undefined
  }

  /** The text of a negative number ends, once reversed, with '-'. */
  lemma NegativeReversed(n: int)
    ensures n < 0 ==> !AllDigits(ReverseText(NumberToString(n)))
    ensures n >= 0 ==> AllDigits(ReverseText(NumberToString(n)))
  {
    var t := ReverseText(NumberToString(n));
    if n < 0 {
      assert t[|t| - 1] == '-';
    }
  }

  /** A reversed number reversed again is the number, unless its last digit
      is 0 (the zero becomes a leading zero and is lost). */
  lemma ReverseNumberTwice(n: nat)
    requires n % 10 != 0
    ensures Reverse(Reverse(Number(n))) == Number(n)
  {
    var s := DecimalString(n);
    var t := ReverseText(s);
    assert t[0] == s[|s| - 1] == DigitChar(n % 10);
    assert Canonical(t);
    DecimalStringParse(t);
    ReverseTextTwice(s);
    ParseDecimalString(n);
  }

  /** `reverse(120)` is 21, and `reverse(-12)` is NaN. */
  lemma ReverseExamples()
    ensures Reverse(Number(120)) == Number(21)
    ensures Reverse(Number(-12)) == NaN
    ensures Reverse(Str("abc")) == Str("cba")
  {
    assert DecimalString(120) == "120" by {
      assert DecimalString(12) == "12" by { assert DecimalString(1) == "1"; }
    }
    assert ReverseText("120") == "021";
    assert ParseDecimal("021") == 21 by {
      assert "021"[..2] == "02" && "02"[..1] == "0" && "0"[..0] == "";
    }
    assert ReverseText("abc") == "cba";
  }
}
