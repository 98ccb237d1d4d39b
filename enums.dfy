/** Numeric and string enums as TypeScript compiles them (src/handbook/Enums/index.ts).

    A declaration is a list of members. Each member's value is fixed in
    declaration order: an uninitialised member takes the previous value + 1
    (0 for the first member), a constant enum expression is evaluated against
    the members declared before it, a string initialiser gives a string member.
    The resulting object is the fold of one write per member: a numeric member
    writes `obj[name] = value` and then `obj[value] = name`, so a later member
    with the same value takes over the reverse entry; a string member writes
    only `obj[name] = value`. */
module Enums {
  import opened JsValues

  /** A constant enum expression: a literal, an earlier member, or a sum. */
  datatype ConstExpr =
    | Literal(n: int)
    | MemberRef(name: string)
    | Plus(left: ConstExpr, right: ConstExpr)

  /** How a member is initialised. `Computed` is a member whose initialiser is
      evaluated at run time (`'abcd'.length`); it carries the value that yields. */
  datatype Initializer =
    | Implicit
    | NumberInit(expr: ConstExpr)
    | StringInit(s: string)
    | Computed(value: int)

  datatype Member = Member(name: string, init: Initializer)

  datatype EnumValue = NumberValue(n: int) | StringValue(s: string)

  /** The assignment the compiled code performs for one member. */
  datatype Write = Write(name: string, value: EnumValue)

  /** The enum object: name -> value entries, and value -> name entries for the
      numeric members. Member names cannot be numeric, so the two never share a key. */
  datatype EnumObject = EnumObject(forward: map<string, EnumValue>, reverse: map<int, string>)

  const Empty: EnumObject := EnumObject(map[], map[])

  /** One member statement of the compiled code:
      `obj[obj[name] = n] = name` for a number, `obj[name] = s` for a string. */
  function Apply(obj: EnumObject, w: Write): EnumObject {
    match w.value
    case NumberValue(n) => EnumObject(obj.forward[w.name := w.value], obj.reverse[n := w.name])
    case StringValue(_) => EnumObject(obj.forward[w.name := w.value], obj.reverse)
  }

  /** The member statements run in order. */
  function ApplyAll(obj: EnumObject, ws: seq<Write>): EnumObject
    decreases |ws|
  {
    if ws == [] then obj else Apply(ApplyAll(obj, ws[..|ws| - 1]), ws[|ws| - 1])
  }

  /** Value of a constant enum expression; None where TypeScript rejects it
      (a reference to an undeclared or non-numeric member). */
  function Eval(e: ConstExpr, env: map<string, EnumValue>): Option<int> {
    match e
    case Literal(n) => Some(n)
    case MemberRef(name) =>
      if name in env && env[name].NumberValue? then Some(env[name].n) else None
    case Plus(l, r) =>
      match (Eval(l, env), Eval(r, env))
      case (Some(a), Some(b)) => Some(a + b)
      case _ => None
  }

  /** The value of a member, given the previous member (if any) and the members
      declared so far. An uninitialised member needs a numeric constant before it. */
  function NextValue(init: Initializer, prev: Option<(Initializer, EnumValue)>,
                     env: map<string, EnumValue>): Option<EnumValue>
  {
    match init
    case Implicit =>
      (match prev
       case None => Some(NumberValue(0))
       case Some((Computed(_), _)) => None
       case Some((_, NumberValue(p))) => Some(NumberValue(p + 1))
       case Some((_, StringValue(_))) => None)
    case NumberInit(e) =>
      (match Eval(e, env)
       case Some(n) => Some(NumberValue(n))
       case None => None)
    case StringInit(s) => Some(StringValue(s))
    case Computed(v) => Some(NumberValue(v))
  }

  /** The write for member m after the writes ws of the members before it
      (prevInit is the initialiser of the member just before m); None when
      the name is taken or the value cannot be determined. */
  function Declare(ws: seq<Write>, prevInit: Initializer, m: Member): Option<Write> {
    var env := ApplyAll(Empty, ws).forward;
    if m.name in env then None
    else
      match NextValue(m.init, if ws == [] then None else Some((prevInit, ws[|ws| - 1].value)), env)
      case None => None
      case Some(v) => Some(Write(m.name, v))
  }

  /** The writes a declaration compiles to, or None when TypeScript rejects it
      (a duplicate member name, an uninitialised member after a string or computed
      member, an ill-formed constant expression). */
  function Assign(ms: seq<Member>): (r: Option<seq<Write>>)
    ensures r.Some? ==> |r.value| == |ms|
    decreases |ms|
  {
    if ms == [] then Some([])
    else
      match Assign(ms[..|ms| - 1])
      case None => None
      case Some(ws) =>
        match Declare(ws, if |ms| >= 2 then ms[|ms| - 2].init else Implicit, ms[|ms| - 1])
        case None => None
        case Some(w) => Some(ws + [w])
  }

  /** The enum object a declaration denotes. */
  function Compile(ms: seq<Member>): Option<EnumObject> {
    match Assign(ms)
    case None => None
    case Some(ws) => Some(ApplyAll(Empty, ws))
  }

  // ---------------------------------------------------------------------
  // The fold of writes: last write wins, forward and reverse.

  /** The member names the writes assign. */
  function Names(ws: seq<Write>): set<string>
    decreases |ws|
  {
    if ws == [] then {} else Names(ws[..|ws| - 1]) + {ws[|ws| - 1].name}
  }

  /** The numbers the writes assign. */
  function Numbers(ws: seq<Write>): set<int>
    decreases |ws|
  {
    if ws == [] then {}
    else Numbers(ws[..|ws| - 1]) + (match ws[|ws| - 1].value
                                    case NumberValue(n) => {n}
                                    case StringValue(_) => {})
  }

  lemma {:induction false} NamesMembership(ws: seq<Write>, x: string)
    ensures x in Names(ws) <==> exists j :: 0 <= j < |ws| && ws[j].name == x
    decreases |ws|
  {
    if ws != [] {
      var p := ws[..|ws| - 1];
      NamesMembership(p, x);
      if exists j :: 0 <= j < |ws| && ws[j].name == x {
        var j :| 0 <= j < |ws| && ws[j].name == x;
        if j < |p| { assert p[j] == ws[j]; }
      }
      if exists j :: 0 <= j < |p| && p[j].name == x {
        var j :| 0 <= j < |p| && p[j].name == x;
        assert ws[j] == p[j];
      }
    }
  }

  lemma {:induction false} NumbersMembership(ws: seq<Write>, k: int)
    ensures k in Numbers(ws) <==> exists j :: 0 <= j < |ws| && ws[j].value == NumberValue(k)
    decreases |ws|
  {
    if ws != [] {
      var p := ws[..|ws| - 1];
      NumbersMembership(p, k);
      if exists j :: 0 <= j < |ws| && ws[j].value == NumberValue(k) {
        var j :| 0 <= j < |ws| && ws[j].value == NumberValue(k);
        if j < |p| { assert p[j] == ws[j]; }
      }
      if exists j :: 0 <= j < |p| && p[j].value == NumberValue(k) {
        var j :| 0 <= j < |p| && p[j].value == NumberValue(k);
        assert ws[j] == p[j];
      }
    }
  }

  /** The forward keys after the writes: the old keys and every written name. */
  lemma {:induction false} ForwardKeys(obj: EnumObject, ws: seq<Write>)
    ensures ApplyAll(obj, ws).forward.Keys == obj.forward.Keys + Names(ws)
    decreases |ws|
  {
    if ws != [] {
      ForwardKeys(obj, ws[..|ws| - 1]);
    }
  }

  /** The reverse keys after the writes: the old keys and every written number. */
  lemma {:induction false} ReverseKeys(obj: EnumObject, ws: seq<Write>)
    ensures ApplyAll(obj, ws).reverse.Keys == obj.reverse.Keys + Numbers(ws)
    decreases |ws|
  {
    if ws != [] {
      ReverseKeys(obj, ws[..|ws| - 1]);
    }
  }

  /** After the writes, a name reads back the value of the last write to it. */
  lemma {:induction false} ForwardLastWrite(obj: EnumObject, ws: seq<Write>, i: int)
    requires 0 <= i < |ws|
    requires forall j :: i < j < |ws| ==> ws[j].name != ws[i].name
    ensures ws[i].name in ApplyAll(obj, ws).forward
    ensures ApplyAll(obj, ws).forward[ws[i].name] == ws[i].value
    decreases |ws|
  {
    if i < |ws| - 1 {
      ForwardLastWrite(obj, ws[..|ws| - 1], i);
    }
  }

  /** After the writes, a number reads back the name of the last numeric member
      that had it: a duplicate value overwrites the reverse entry. */
  lemma {:induction false} ReverseLastWrite(obj: EnumObject, ws: seq<Write>, i: int, k: int)
    requires 0 <= i < |ws| && ws[i].value == NumberValue(k)
    requires forall j :: i < j < |ws| ==> ws[j].value != NumberValue(k)
    ensures k in ApplyAll(obj, ws).reverse
    ensures ApplyAll(obj, ws).reverse[k] == ws[i].name
    decreases |ws|
  {
    if i < |ws| - 1 {
      ReverseLastWrite(obj, ws[..|ws| - 1], i, k);
    }
  }

  /** String members add no value -> name entry. */
  lemma {:induction false} StringWritesKeepReverse(obj: EnumObject, ws: seq<Write>)
    requires forall j :: 0 <= j < |ws| ==> ws[j].value.StringValue?
    ensures ApplyAll(obj, ws).reverse == obj.reverse
    decreases |ws|
  {
    if ws != [] {
      StringWritesKeepReverse(obj, ws[..|ws| - 1]);
    }
  }

  // ---------------------------------------------------------------------
  // How each member's value is assigned.

  lemma {:induction false} AssignPrefix(ms: seq<Member>, k: int)
    requires Assign(ms).Some? && 0 <= k <= |ms|
    ensures Assign(ms[..k]) == Some(Assign(ms).value[..k])
    decreases |ms|
  {
    var ws := Assign(ms).value;
    if k < |ms| {
      var p := ms[..|ms| - 1];
      AssignLast(ms);
      AssignPrefix(p, k);
      assert p[..k] == ms[..k];
      assert Assign(p).value[..k] == ws[..k];
    } else {
      assert ms[..k] == ms;
      assert ws[..k] == ws;
    }
  }

  /** A declaration whose prefix is rejected is rejected. */
  lemma AssignRejectsExtension(ms: seq<Member>, k: int)
    requires 0 <= k <= |ms| && Assign(ms[..k]).None?
    ensures Assign(ms).None?
  {
    if Assign(ms).Some? {
      AssignPrefix(ms, k);
    }
  }

  /** The last step of an accepted declaration: the last member's name is new
      and its value is the one NextValue gives. */
  lemma AssignLast(ms: seq<Member>)
    requires |ms| > 0 && Assign(ms).Some?
    ensures Assign(ms[..|ms| - 1]).Some?
    ensures var p := Assign(ms[..|ms| - 1]).value;
      var ws := Assign(ms).value;
      var m := ms[|ms| - 1];
      && ws == p + [ws[|ms| - 1]]
      && ws[|ms| - 1].name == m.name
      && m.name !in ApplyAll(Empty, p).forward
      && NextValue(m.init,
                   if p == [] then None else Some((ms[|ms| - 2].init, p[|p| - 1].value)),
                   ApplyAll(Empty, p).forward) == Some(ws[|ms| - 1].value)
  {
    var p := Assign(ms[..|ms| - 1]).value;
    var w := Declare(p, if |ms| >= 2 then ms[|ms| - 2].init else Implicit, ms[|ms| - 1]).value;
    assert Assign(ms).value == p + [w];
  }

  /** Write i of an accepted declaration names member i, and that name is not
      among the names declared before it. */
  lemma AssignNames(ms: seq<Member>, i: int)
    requires Assign(ms).Some? && 0 <= i < |ms|
    ensures Assign(ms).value[i].name == ms[i].name
    ensures ms[i].name !in ApplyAll(Empty, Assign(ms).value[..i]).forward
  {
    var ws := Assign(ms).value;
    var q := ms[..i + 1];
    AssignPrefix(ms, i + 1);
    AssignPrefix(ms, i);
    assert q[..|q| - 1] == ms[..i];
    AssignLast(q);
    assert ws[..i + 1][i] == ws[i];
  }

  /** Member k of ms is accepted with write ws[k] once the members before it
      were accepted with the writes before it, which built obj. */
  lemma AssignStep(ms: seq<Member>, ws: seq<Write>, k: int, obj: EnumObject)
    requires |ms| == |ws| && 0 <= k < |ms|
    requires Assign(ms[..k]) == Some(ws[..k]) && ApplyAll(Empty, ws[..k]) == obj
    requires ws[k].name == ms[k].name && ms[k].name !in obj.forward
    requires NextValue(ms[k].init, if k == 0 then None else Some((ms[k - 1].init, ws[k - 1].value)),
                       obj.forward) == Some(ws[k].value)
    ensures Assign(ms[..k + 1]) == Some(ws[..k + 1])
    ensures ApplyAll(Empty, ws[..k + 1]) == Apply(obj, ws[k])
  {
    var q := ms[..k + 1];
    assert q[..|q| - 1] == ms[..k];
    assert ws[..k + 1] == ws[..k] + [ws[k]];
    if k > 0 {
      assert q[|q| - 2] == ms[k - 1];
      assert ws[..k][k - 1] == ws[k - 1];
    }
  }

  /** The rules NextValue applies, spelled out case by case. */
  lemma NextValueRules(init: Initializer, prev: Option<(Initializer, EnumValue)>,
                       env: map<string, EnumValue>, v: EnumValue)
    requires NextValue(init, prev, env) == Some(v)
    ensures init == Implicit && prev.None? ==> v == NumberValue(0)
    ensures init == Implicit && prev.Some? ==>
      && !prev.value.0.Computed?
      && prev.value.1.NumberValue?
      && v == NumberValue(prev.value.1.n + 1)
    ensures init.NumberInit? ==> v.NumberValue? && Eval(init.expr, env) == Some(v.n)
    ensures init.StringInit? ==> v == StringValue(init.s)
    ensures init.Computed? ==> v == NumberValue(init.value)
  {
  }

  /** The value rule for member i of an accepted declaration: 0 for an
      uninitialised first member, the previous numeric value + 1 for a later
      uninitialised member, the constant expression's value over the members
      before it, the string of a string initialiser, the run-time value of a
      computed member; and no earlier member has the same name. */
  lemma AssignedValue(ms: seq<Member>, i: int)
    requires Assign(ms).Some? && 0 <= i < |ms|
    ensures var ws := Assign(ms).value;
      && ws[i].name == ms[i].name
      && ms[i].name !in ApplyAll(Empty, ws[..i]).forward
      && (ms[i].init == Implicit && i == 0 ==> ws[i].value == NumberValue(0))
      && (ms[i].init == Implicit && i > 0 ==>
            && !ms[i - 1].init.Computed?
            && ws[i - 1].value.NumberValue?
            && ws[i].value == NumberValue(ws[i - 1].value.n + 1))
      && (ms[i].init.NumberInit? ==>
            && ws[i].value.NumberValue?
            && Eval(ms[i].init.expr, ApplyAll(Empty, ws[..i]).forward) == Some(ws[i].value.n))
      && (ms[i].init.StringInit? ==> ws[i].value == StringValue(ms[i].init.s))
      && (ms[i].init.Computed? ==> ws[i].value == NumberValue(ms[i].init.value))
  {
    var ws := Assign(ms).value;
    var q := ms[..i + 1];
    AssignPrefix(ms, i + 1);
    AssignPrefix(ms, i);
    assert q[..|q| - 1] == ms[..i];
    AssignLast(q);
    var p := ws[..i];
    assert Assign(q).value == ws[..i + 1];
    assert ws[..i + 1][i] == ws[i];
    var prev := if p == [] then None else Some((q[|q| - 2].init, p[|p| - 1].value));
    NextValueRules(ms[i].init, prev, ApplyAll(Empty, p).forward, ws[i].value);
    if i > 0 {
      assert q[|q| - 2] == ms[i - 1];
      assert p[|p| - 1] == ws[i - 1];
    }
  }

  /** An uninitialised member directly after a string member is rejected
      ("Enum member must have initializer"). */
  lemma ImplicitAfterStringRejected(ms: seq<Member>, i: int)
    requires 0 < i < |ms| && ms[i].init == Implicit && ms[i - 1].init.StringInit?
    ensures Assign(ms).None?
  {
    if Assign(ms).Some? {
      AssignedValue(ms, i - 1);
      AssignedValue(ms, i);
    }
  }

  /** An accepted declaration has distinct member names. */
  lemma DistinctNames(ms: seq<Member>, i: int, j: int)
    requires Assign(ms).Some? && 0 <= i < j < |ms|
    ensures ms[i].name != ms[j].name
  {
    var ws := Assign(ms).value;
    AssignNames(ms, i);
    AssignNames(ms, j);
    assert ws[..j][i] == ws[i];
    ForwardKeys(Empty, ws[..j]);
    NamesMembership(ws[..j], ws[i].name);
  }

  /** Forward lookup of every member returns its assigned value. */
  lemma CompileForward(ms: seq<Member>, ws: seq<Write>, i: int)
    requires Assign(ms) == Some(ws) && 0 <= i < |ms|
    ensures Compile(ms) == Some(ApplyAll(Empty, ws))
    ensures ms[i].name in ApplyAll(Empty, ws).forward
    ensures ApplyAll(Empty, ws).forward[ms[i].name] == ws[i].value
  {
    AssignNames(ms, i);
    forall j | i < j < |ws| ensures ws[j].name != ws[i].name {
      DistinctNames(ms, i, j);
      AssignNames(ms, j);
    }
    ForwardLastWrite(Empty, ws, i);
  }

  /** The forward keys are exactly the member names. */
  lemma CompileForwardKeys(ms: seq<Member>, ws: seq<Write>, x: string)
    requires Assign(ms) == Some(ws)
    ensures x in ApplyAll(Empty, ws).forward <==> exists j :: 0 <= j < |ms| && ms[j].name == x
  {
    ForwardKeys(Empty, ws);
    NamesMembership(ws, x);
  }

  /** Reverse lookup of a number yields the name of the last member with that value. */
  lemma CompileReverse(ms: seq<Member>, ws: seq<Write>, i: int, k: int)
    requires Assign(ms) == Some(ws) && 0 <= i < |ms|
    requires ws[i].value == NumberValue(k)
    requires forall j :: i < j < |ws| ==> ws[j].value != NumberValue(k)
    ensures k in ApplyAll(Empty, ws).reverse && ApplyAll(Empty, ws).reverse[k] == ms[i].name
  {
    AssignNames(ms, i);
    ReverseLastWrite(Empty, ws, i, k);
  }

  /** Only the values of numeric members have reverse entries. */
  lemma CompileReverseKeys(ms: seq<Member>, ws: seq<Write>, k: int)
    requires Assign(ms) == Some(ws)
    ensures k in ApplyAll(Empty, ws).reverse
        <==> exists j :: 0 <= j < |ws| && ws[j].value == NumberValue(k)
  {
    ReverseKeys(Empty, ws);
    NumbersMembership(ws, k);
  }

  /** A declaration whose members all have string initialisers has no reverse entries. */
  lemma StringEnumHasNoReverse(ms: seq<Member>, ws: seq<Write>)
    requires Assign(ms) == Some(ws)
    requires forall j :: 0 <= j < |ms| ==> ms[j].init.StringInit?
    ensures ApplyAll(Empty, ws).reverse == map[]
  {
    forall j | 0 <= j < |ws| ensures ws[j].value.StringValue? {
      AssignedValue(ms, j);
    }
    StringWritesKeepReverse(Empty, ws);
  }

  // ---------------------------------------------------------------------
  // The compiled code as a left-to-right pass.

  /** The compiled IIFE read left to right: member k is checked against the
      object built so far and the member before it, then written. */
  function Fold(ms: seq<Member>, k: nat, obj: EnumObject, prev: Option<(Initializer, EnumValue)>): Option<EnumObject>
    requires k <= |ms|
    decreases |ms| - k
  {
    if k == |ms| then Some(obj)
    else
      var m := ms[k];
      if m.name in obj.forward then None
      else
        match NextValue(m.init, prev, obj.forward)
        case None => None
        case Some(v) => Fold(ms, k + 1, Apply(obj, Write(m.name, v)), Some((m.init, v)))
  }

  /** The member before position |ws|, paired with its value. */
  function Prev(ms: seq<Member>, ws: seq<Write>): Option<(Initializer, EnumValue)>
    requires |ws| <= |ms|
  {
    if ws == [] then None else Some((ms[|ws| - 1].init, ws[|ws| - 1].value))
  }

  lemma {:induction false} FoldFrom(ms: seq<Member>, k: nat)
    requires k <= |ms|
    ensures match Assign(ms[..k])
      case None => Compile(ms).None?
      case Some(ws) => Compile(ms) == Fold(ms, k, ApplyAll(Empty, ws), Prev(ms, ws))
    decreases |ms| - k
  {
    if Assign(ms[..k]).None? {
      AssignRejectsExtension(ms, k);
    } else if k == |ms| {
      assert ms[..k] == ms;
    } else {
      var ws := Assign(ms[..k]).value;
      var q := ms[..k + 1];
      assert q[..|q| - 1] == ms[..k];
      if k >= 1 { assert q[|q| - 2] == ms[k - 1]; }
      FoldFrom(ms, k + 1);
      match Declare(ws, if |q| >= 2 then q[|q| - 2].init else Implicit, ms[k])
      case None => {
        assert Assign(q).None?;
      }
      case Some(w) => {
        assert Assign(q) == Some(ws + [w]);
        assert (ws + [w])[..|ws|] == ws;
      }
    }
  }

  /** The declaration's meaning equals one left-to-right pass over its members,
      which is how the compiled IIFE builds the object. */
  lemma CompileIsFold(ms: seq<Member>)
    ensures Compile(ms) == Fold(ms, 0, Empty, None)
  {
    FoldFrom(ms, 0);
    assert ms[..0] == [];
  }

  /** Checks that the writes ws are the ones a left-to-right pass over ms from
      member k performs, and returns the object they build. */
  function Replay(ms: seq<Member>, ws: seq<Write>, k: nat, obj: EnumObject): Option<EnumObject>
    requires |ms| == |ws| && k <= |ms|
    decreases |ms| - k
  {
    if k == |ms| then Some(obj)
    else if && ws[k].name == ms[k].name && ms[k].name !in obj.forward
         && NextValue(ms[k].init, if k == 0 then None else Some((ms[k - 1].init, ws[k - 1].value)),
                      obj.forward) == Some(ws[k].value)
    then Replay(ms, ws, k + 1, Apply(obj, ws[k]))
    else None
  }

  lemma {:induction false} ReplayCompiles(ms: seq<Member>, ws: seq<Write>, k: nat, obj: EnumObject)
    requires |ms| == |ws| && k <= |ms|
    requires Replay(ms, ws, k, obj).Some?
    requires Assign(ms[..k]) == Some(ws[..k]) && ApplyAll(Empty, ws[..k]) == obj
    ensures Assign(ms) == Some(ws) && Compile(ms) == Replay(ms, ws, k, obj)
    decreases |ms| - k
  {
    if k == |ms| {
      assert ms[..k] == ms && ws[..k] == ws;
    } else {
      AssignStep(ms, ws, k, obj);
      ReplayCompiles(ms, ws, k + 1, Apply(obj, ws[k]));
    }
  }

  /** One step of a replay. */
  lemma ReplayStep(ms: seq<Member>, ws: seq<Write>, k: nat, obj: EnumObject)
    requires |ms| == |ws| && k < |ms| && Replay(ms, ws, k, obj).Some?
    ensures Replay(ms, ws, k, obj) == Replay(ms, ws, k + 1, Apply(obj, ws[k]))
  {
  }

  /** Writes ws that a replay of ms accepts are the writes ms compiles to. */
  lemma Accepts(ms: seq<Member>, ws: seq<Write>)
    requires |ms| == |ws| && Replay(ms, ws, 0, Empty).Some?
    ensures Assign(ms) == Some(ws) && Compile(ms) == Replay(ms, ws, 0, Empty)
  {
    assert ms[..0] == [] && ws[..0] == [];
    ReplayCompiles(ms, ws, 0, Empty);
  }

  // ---------------------------------------------------------------------
  // Reading the enum object.

  /** `E[name]`: the member's value, or undefined (None). */
  function Lookup(e: EnumObject, name: string): (r: Option<EnumValue>)
    ensures r.Some? <==> name in e.forward
    ensures r.Some? ==> r.value == e.forward[name]
  {
    if name in e.forward then Some(e.forward[name]) else None
  }

  /** `E[n]` for a number n: the member name, or undefined (None). */
  function ReverseLookup(e: EnumObject, n: int): (r: Option<string>)
    ensures r.Some? <==> n in e.reverse
    ensures r.Some? ==> r.value == e.reverse[n]
  {
    if n in e.reverse then Some(e.reverse[n]) else None
  }

  // ---------------------------------------------------------------------
  // The declarations of src/handbook/Enums/index.ts.

  const SeasonMembers: seq<Member> :=
    [Member("SPRING", Implicit), Member("SUMMER", Implicit), Member("AUTUMN", Implicit), Member("WINTER", Implicit)]

  const SeasonWrites: seq<Write> :=
    [Write("SPRING", NumberValue(0)), Write("SUMMER", NumberValue(1)),
     Write("AUTUMN", NumberValue(2)), Write("WINTER", NumberValue(3))]

  /** Season counts from 0, and Season[0] is the name SPRING. */
  lemma SeasonValues()
    ensures Compile(SeasonMembers).Some?
    ensures var e := Compile(SeasonMembers).value;
      && Lookup(e, "SPRING") == Some(NumberValue(0))
      && Lookup(e, "SUMMER") == Some(NumberValue(1))
      && Lookup(e, "AUTUMN") == Some(NumberValue(2))
      && Lookup(e, "WINTER") == Some(NumberValue(3))
      && ReverseLookup(e, 0) == Some("SPRING")
  {
    Accepts(SeasonMembers, SeasonWrites);
  }

  const DaysMembers: seq<Member> :=
    [Member("Sun", NumberInit(Literal(1))), Member("Mon", Implicit), Member("Tue", Implicit),
     Member("Wed", Implicit), Member("Thu", Implicit), Member("Fri", Implicit), Member("Sat", Implicit)]

  const DaysWrites: seq<Write> :=
    [Write("Sun", NumberValue(1)), Write("Mon", NumberValue(2)), Write("Tue", NumberValue(3)),
     Write("Wed", NumberValue(4)), Write("Thu", NumberValue(5)), Write("Fri", NumberValue(6)),
     Write("Sat", NumberValue(7))]

  /** `Sun = 1` restarts the count, so Mon is 2 (and Sat is 7). */
  lemma DaysValues()
    ensures Compile(DaysMembers).Some?
    ensures var e := Compile(DaysMembers).value;
      && Lookup(e, "Sun") == Some(NumberValue(1))
      && Lookup(e, "Mon") == Some(NumberValue(2))
      && Lookup(e, "Sat") == Some(NumberValue(7))
  {
    Accepts(DaysMembers, DaysWrites);
  }

  const DuplicateDaysMembers: seq<Member> :=
    [Member("Sun", NumberInit(Literal(3))), Member("Mon", NumberInit(Literal(1))), Member("Tue", Implicit),
     Member("Wed", Implicit), Member("Thu", Implicit), Member("Fri", Implicit), Member("Sat", Implicit)]

  const DuplicateDaysWrites: seq<Write> :=
    [Write("Sun", NumberValue(3)), Write("Mon", NumberValue(1)), Write("Tue", NumberValue(2)),
     Write("Wed", NumberValue(3)), Write("Thu", NumberValue(4)), Write("Fri", NumberValue(5)),
     Write("Sat", NumberValue(6))]

  /** Duplicate values are accepted: Sun and Wed are both 3, and Days[3] is
      the later member Wed, not Sun. */
  lemma DuplicateDaysValues()
    ensures Compile(DuplicateDaysMembers).Some?
    ensures var e := Compile(DuplicateDaysMembers).value;
      && Lookup(e, "Sun") == Some(NumberValue(3))
      && Lookup(e, "Wed") == Some(NumberValue(3))
      && ReverseLookup(e, 3) == Some("Wed")
      && ReverseLookup(e, 3) != Some("Sun")
  {
    Accepts(DuplicateDaysMembers, DuplicateDaysWrites);
  }

  const PromiseStatusMembers: seq<Member> :=
    [Member("Pending", StringInit("pending")), Member("Fulfilled", StringInit("fulfilled")),
     Member("Rejected", StringInit("rejected"))]

  const PromiseStatusWrites: seq<Write> :=
    [Write("Pending", StringValue("pending")), Write("Fulfilled", StringValue("fulfilled")),
     Write("Rejected", StringValue("rejected"))]

  /** A string enum: Rejected is 'rejected', the value 'pending' is not a key,
      and there are no value -> name entries. */
  lemma PromiseStatusValues()
    ensures Compile(PromiseStatusMembers).Some?
    ensures var e := Compile(PromiseStatusMembers).value;
      && Lookup(e, "Rejected") == Some(StringValue("rejected"))
      && Lookup(e, "pending") == None
      && e.reverse == map[]
  {
    Accepts(PromiseStatusMembers, PromiseStatusWrites);
  }

  const ConstantEnumMembers: seq<Member> :=
    [Member("FIRST", Implicit), Member("SECOND", Implicit),
     Member("THIRD", NumberInit(Plus(MemberRef("FIRST"), MemberRef("SECOND"))))]

  const ConstantEnumWrites: seq<Write> :=
    [Write("FIRST", NumberValue(0)), Write("SECOND", NumberValue(1)), Write("THIRD", NumberValue(1))]

  /** `THIRD = FIRST + SECOND` is folded to 1, and as the later member with
      value 1 it takes over the reverse entry 1. */
  lemma ConstantEnumMemberValues()
    ensures Compile(ConstantEnumMembers).Some?
    ensures var e := Compile(ConstantEnumMembers).value;
      && Lookup(e, "FIRST") == Some(NumberValue(0))
      && Lookup(e, "SECOND") == Some(NumberValue(1))
      && Lookup(e, "THIRD") == Some(NumberValue(1))
      && ReverseLookup(e, 1) == Some("THIRD")
  {
    var env := map["FIRST" := NumberValue(0), "SECOND" := NumberValue(1)];
    assert Eval(MemberRef("FIRST"), env) == Some(0) && Eval(MemberRef("SECOND"), env) == Some(1);
    Accepts(ConstantEnumMembers, ConstantEnumWrites);
  }

  /** `FIRST = 'abcd'.length`, evaluated when the object is built. */
  const ComputedEnumMembers: seq<Member> := [Member("FIRST", Computed(|"abcd"|))]

  const ComputedEnumWrites: seq<Write> := [Write("FIRST", NumberValue(4))]

  lemma ComputedEnumMemberValues()
    ensures Compile(ComputedEnumMembers).Some?
    ensures var e := Compile(ComputedEnumMembers).value;
      Lookup(e, "FIRST") == Some(NumberValue(4)) && ReverseLookup(e, 4) == Some("FIRST")
  {
    Accepts(ComputedEnumMembers, ComputedEnumWrites);
  }

  const LogLevelMembers: seq<Member> :=
    [Member("ERROR", Implicit), Member("WARN", Implicit), Member("INFO", Implicit), Member("DEBUG", Implicit)]

  const LogLevelWrites: seq<Write> :=
    [Write("ERROR", NumberValue(0)), Write("WARN", NumberValue(1)),
     Write("INFO", NumberValue(2)), Write("DEBUG", NumberValue(3))]

  /** LogLevel is ERROR 0, WARN 1, INFO 2, DEBUG 3, and has no other keys. */
  lemma LogLevelValues(key: string)
    ensures Compile(LogLevelMembers).Some?
    ensures var e := Compile(LogLevelMembers).value;
      && Lookup(e, "ERROR") == Some(NumberValue(0))
      && Lookup(e, "WARN") == Some(NumberValue(1))
      && Lookup(e, "INFO") == Some(NumberValue(2))
      && Lookup(e, "DEBUG") == Some(NumberValue(3))
      && (Lookup(e, key).Some? <==> key in {"ERROR", "WARN", "INFO", "DEBUG"})
  {
    Accepts(LogLevelMembers, LogLevelWrites);
    CompileForwardKeys(LogLevelMembers, LogLevelWrites, key);
  }

  /** The lines `console.log(a, b)` prints: its arguments joined by a space. */
  function LogLine(caption: string, value: string): string {
    caption + " " + value
  }

  /** `printImportant(key, message)`: looks the key up in LogLevel and prints
      three lines when its value is at most LogLevel.WARN. A key that is not a
      member reads undefined, which compares false, so nothing is printed. */
  function PrintImportant(key: string, message: string): seq<string> {
    match Compile(LogLevelMembers)
    case None => []
    case Some(logLevel) =>
      match (Lookup(logLevel, key), Lookup(logLevel, "WARN"))
      case (Some(NumberValue(num)), Some(NumberValue(warn))) =>
        if num <= warn then
          [LogLine("Log level key is: ", key),
           LogLine("Log level value is: ", NumberToString(num)),
           LogLine("Log level message is: ", message)]
        else []
      case _ => []
  }

  /** printImportant prints exactly for the keys ERROR and WARN, and then the
      key, its value and the message. */
  lemma PrintImportantKeys(key: string, message: string)
    ensures PrintImportant(key, message) != [] <==> key == "ERROR" || key == "WARN"
    ensures key == "ERROR" || key == "WARN" ==>
      PrintImportant(key, message) ==
        ["Log level key is:  " + key,
         "Log level value is:  " + (if key == "ERROR" then "0" else "1"),
         "Log level message is:  " + message]
  {
    LogLevelValues(key);
    var logLevel := Compile(LogLevelMembers).value;
    if key == "ERROR" || key == "WARN" {
      var num := if key == "ERROR" then 0 else 1;
      assert Lookup(logLevel, key) == Some(NumberValue(num));
      assert NumberToString(0) == "0" && NumberToString(1) == "1";
      assert LogLine("Log level key is: ", key) == "Log level key is:  " + key;
      assert LogLine("Log level value is: ", NumberToString(num)) ==
        "Log level value is:  " + (if key == "ERROR" then "0" else "1");
      assert LogLine("Log level message is: ", message) == "Log level message is:  " + message;
    }
  }
}
