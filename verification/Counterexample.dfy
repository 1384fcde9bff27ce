/** Executable counterexamples (amop/orchestrator/counterexample.py): a model's
    claim is validated, run by a fixed runner and judged against what happened.

    JSON decoding and the parser for relation expressions are parameters; what
    the repository's code does when called is an arbitrary `Behaviour`. */
module Counterexample {
  import opened Wrappers
  import opened ReviewGate

  datatype Value =
    | Null
    | Bool(b: bool)
    | Int(n: int)
    | Real(r: real)
    | Str(s: string)
    | List(items: seq<Value>)
    | Obj(fields: map<string, Value>)

  datatype CompareOp = Lt | LtE | Gt | GtE | Eq | NotEq

  /** `Nested` is a comparison inside a comparison, over these names: it passes
      validation, but it has no value to look up. */
  datatype Operand = Name(id: string) | Const(value: Value) | Nested(ids: set<string>)

  datatype Relation = Relation(first: Operand, rest: seq<(CompareOp, Operand)>)

  datatype Call = Call(name: string, args: map<string, Value>, expected: Value, expectRaises: Option<string>)

  datatype Claim = Claim(moduleName: string, functionName: string, calls: seq<Call>, relation: Option<Relation>)

  const MAX_CALLS: nat := 4
  const MAX_ARGS: nat := 8
  const MAX_LIST_LEN: nat := 32
  const REL_TOL: real := 0.000001
  const ABS_TOL: real := 0.000000001

  // ----- Validation -----

  predicate IsLetter(c: char) {
    'A' <= c <= 'Z' || 'a' <= c <= 'z' || c == '_'
  }

  predicate IsIdentExactly(s: string) {
    s != [] && IsLetter(s[0]) && forall i :: 0 <= i < |s| ==> IsLetter(s[i]) || '0' <= s[i] <= '9'
  }

  /** `$` also matches before one final newline. */
  predicate IsIdent(s: string) {
    IsIdentExactly(s) || (s != [] && s[|s| - 1] == '\n' && IsIdentExactly(s[..|s| - 1]))
  }

  lemma IdentIff(s: string)
    requires s == "" || s[|s| - 1] != '\n'
    ensures IsIdent(s) <==>
            s != "" && !('0' <= s[0] <= '9') &&
            forall c :: c in s ==> 'A' <= c <= 'Z' || 'a' <= c <= 'z' || c == '_' || '0' <= c <= '9'
  {
    assert forall i :: 0 <= i < |s| ==> s[i] in s;
    assert forall c :: c in s ==> exists i :: 0 <= i < |s| && s[i] == c;
  }

  predicate IsPublicIdent(s: string) {
    IsIdent(s) && !("__" <= s)
  }

  function IndexOf(s: string, c: char): nat {
    if s == [] || s[0] == c then 0 else 1 + IndexOf(s[1..], c)
  }

  /** `name` or `Class.name`, each segment a public identifier. */
  predicate IsTarget(s: string) {
    var dot := IndexOf(s, '.');
    if dot >= |s| then IsPublicIdent(s) else IsPublicIdent(s[..dot]) && IsPublicIdent(s[dot + 1..])
  }

  /** A target is a public identifier, or two of them around the only dot. */
  lemma IsTargetIff(s: string)
    ensures IsTarget(s) <==>
            IsPublicIdent(s) || exists c, m :: s == c + "." + m && IsPublicIdent(c) && IsPublicIdent(m)
  {
    var dot := IndexOf(s, '.');
    DotIs(s);
    if dot < |s| {
      assert s == s[..dot] + "." + s[dot + 1..];
      NoDotInIdent(s, dot);
      forall c, m | s == c + "." + m && IsPublicIdent(c) ensures c == s[..dot] && m == s[dot + 1..] {
        assert s[|c|] == '.';
        if dot < |c| {
          assert c[dot] == s[dot];
          NoDotInIdent(c, dot);
        }
      }
    } else {
      forall c, m ensures s != c + "." + m {
        HasDot(s, c, m);
      }
    }
  }

  lemma HasDot(s: string, c: string, m: string)
    ensures s == c + "." + m ==> |c| < |s| && s[|c|] == '.'
  {
  }

  lemma {:induction false} DotIs(s: string)
    ensures var dot := IndexOf(s, '.');
            dot <= |s| && (forall i :: 0 <= i < dot ==> s[i] != '.') && (dot < |s| ==> s[dot] == '.')
  {
    if s != [] && s[0] != '.' {
      DotIs(s[1..]);
    }
  }

  lemma NoDotInIdent(s: string, i: nat)
    requires i < |s| && s[i] == '.'
    ensures !IsPublicIdent(s)
  {
    assert s[|s| - 1] == '\n' && i < |s| - 1 ==> s[..|s| - 1][i] == '.';
  }

  predicate IsScalar(v: Value) {
    !v.List? && !v.Obj?
  }

  predicate IsAllowedArg(v: Value) {
    IsScalar(v) || (v.List? && |v.items| <= MAX_LIST_LEN && forall x :: x in v.items ==> IsScalar(x))
  }

  function Get(fields: map<string, Value>, key: string): Value {
    if key in fields then fields[key] else Null
  }

  predicate GoodCall(v: Value) {
    && v.Obj?
    && Get(v.fields, "name").Str? && IsIdent(Get(v.fields, "name").s)
    && Get(v.fields, "args").Obj? && |Get(v.fields, "args").fields| <= MAX_ARGS
    && (forall k :: k in Get(v.fields, "args").fields ==> IsIdent(k) && IsAllowedArg(Get(v.fields, "args").fields[k]))
    && IsScalar(Get(v.fields, "expect"))
    && (Get(v.fields, "expect_raises").Null? ||
        (Get(v.fields, "expect_raises").Str? && IsIdent(Get(v.fields, "expect_raises").s) &&
            Get(v.fields, "expect").Null?))
  }

  function ToCall(v: Value): Call
    requires GoodCall(v)
  {
    var raises := Get(v.fields, "expect_raises");
    Call(Get(v.fields, "name").s, Get(v.fields, "args").fields, Get(v.fields, "expect"),
         if raises.Null? then None else Some(raises.s))
  }

  predicate KnownOperand(o: Operand, names: set<string>) {
    match o
    case Name(id) => id in names
    case Const(_) => true
    case Nested(ids) => ids <= names
  }

  predicate KnownRelation(r: Relation, names: set<string>) {
    r.rest != [] && KnownOperand(r.first, names) && forall p :: p in r.rest ==> KnownOperand(p.1, names)
  }

  predicate StatesOutcome(c: Call) {
    !c.expected.Null? || c.expectRaises.Some?
  }

  function Names(calls: seq<Call>): set<string> {
    set c | c in calls :: c.name
  }

  ghost predicate DistinctNames(calls: seq<Call>) {
    forall i, j :: 0 <= i < j < |calls| ==> calls[i].name != calls[j].name
  }

  /** The listed objects are exactly these calls, under distinct names. */
  ghost predicate DenoteCalls(items: seq<Value>, calls: seq<Call>) {
    && |calls| == |items|
    && (forall i :: 0 <= i < |items| ==> GoodCall(items[i]) && calls[i] == ToCall(items[i]))
    && DistinctNames(calls)
  }

  ghost predicate DenotesRelation(
    v: Value, parseRelation: string -> Option<Relation>, calls: seq<Call>, relation: Option<Relation>)
  {
    if v.Null? then relation == None
    else v.Str? && relation.Some? && parseRelation(v.s) == relation && KnownRelation(relation.value, Names(calls))
  }

  /** A raw object says exactly `claim`, and `claim` is safe to execute: bare
      identifiers, bounded scalar arguments, distinct call names, a relation
      over those names only, and something asserted. */
  ghost predicate Denotes(raw: Value, parseRelation: string -> Option<Relation>, claim: Claim) {
    && raw.Obj?
    && Get(raw.fields, "module") == Str(claim.moduleName) && IsPublicIdent(claim.moduleName)
    && Get(raw.fields, "function") == Str(claim.functionName) && IsTarget(claim.functionName)
    && Get(raw.fields, "calls").List? && 1 <= |claim.calls| <= MAX_CALLS
    && DenoteCalls(Get(raw.fields, "calls").items, claim.calls)
    && DenotesRelation(Get(raw.fields, "claim"), parseRelation, claim.calls, claim.relation)
    && (claim.relation.Some? || exists c :: c in claim.calls && StatesOutcome(c))
  }

  predicate IsSmall(v: Value) {
    match v
    case Obj(_) => false
    case List(items) => |items| <= 32 && forall x :: x in items ==> !x.Obj? && !x.List?
    case _ => true
  }

  /** Whatever is executed is bounded: at most four calls of at most eight arguments,
      each a scalar or a flat list of at most 32 of them. */
  lemma ClaimIsBounded(raw: Value, parseRelation: string -> Option<Relation>, claim: Claim)
    requires Denotes(raw, parseRelation, claim)
    ensures 1 <= |claim.calls| <= 4
    ensures forall c :: c in claim.calls ==>
              |c.args| <= 8 && forall k :: k in c.args ==> IsSmall(c.args[k])
  {
    var items := Get(raw.fields, "calls").items;
    forall c | c in claim.calls ensures |c.args| <= 8 && forall k :: k in c.args ==> IsSmall(c.args[k]) {
      var i :| 0 <= i < |claim.calls| && claim.calls[i] == c;
      assert GoodCall(items[i]) && c == ToCall(items[i]);
    }
  }

  lemma CallsAreUnique(items: seq<Value>, calls: seq<Call>, other: seq<Call>)
    requires DenoteCalls(items, calls) && DenoteCalls(items, other)
    ensures calls == other
  {
  }

  lemma ClashDenotesNothing(items: seq<Value>, i: nat, j: nat)
    requires j < i < |items| && GoodCall(items[i]) && GoodCall(items[j]) &&
             ToCall(items[i]).name == ToCall(items[j]).name
    ensures forall calls :: !DenoteCalls(items, calls)
  {
    forall calls: seq<Call> ensures !DenoteCalls(items, calls) {
      assert |calls| == |items| && calls[i] == ToCall(items[i]) && calls[j] == ToCall(items[j]) ==>
             !DistinctNames(calls);
    }
  }

  /** The first `i` objects are the calls taken so far. */
  ghost predicate Taken(items: seq<Value>, i: nat, calls: seq<Call>) {
    && |calls| == i <= |items| && DistinctNames(calls)
    && forall j :: 0 <= j < i ==> GoodCall(items[j]) && calls[j] == ToCall(items[j])
  }

  lemma NamesGrow(calls: seq<Call>, call: Call)
    ensures Names(calls + [call]) == Names(calls) + {call.name}
  {
    var more := calls + [call];
    assert forall c :: c in more <==> c in calls || c == call;
  }

  lemma TakeNew(items: seq<Value>, i: nat, calls: seq<Call>)
    requires Taken(items, i, calls) && i < |items| && GoodCall(items[i]) && ToCall(items[i]).name !in Names(calls)
    ensures Taken(items, i + 1, calls + [ToCall(items[i])])
  {
    var call := ToCall(items[i]);
    var more := calls + [call];
    forall j | 0 <= j < i ensures calls[j].name != call.name {
      assert calls[j] in calls;
    }
    assert DistinctNames(more);
    assert forall j :: 0 <= j < i + 1 ==> GoodCall(items[j]) && more[j] == ToCall(items[j]);
  }

  lemma TakeCall(items: seq<Value>, i: nat, calls: seq<Call>)
    requires Taken(items, i, calls) && i < |items| && GoodCall(items[i])
    ensures var call := ToCall(items[i]);
            if call.name in Names(calls) then forall other :: !DenoteCalls(items, other)
            else Taken(items, i + 1, calls + [call]) && Names(calls + [call]) == Names(calls) + {call.name}
  {
    var call := ToCall(items[i]);
    if call.name in Names(calls) {
      var c :| c in calls && c.name == call.name;
      var j :| 0 <= j < i && calls[j] == c;
      ClashDenotesNothing(items, i, j);
    } else {
      TakeNew(items, i, calls);
      NamesGrow(calls, call);
    }
  }

  method ParseCalls(items: seq<Value>) returns (r: Option<seq<Call>>)
    ensures r.Some? ==> DenoteCalls(items, r.value)
    ensures r.None? ==> forall calls :: !DenoteCalls(items, calls)
  {
    var calls: seq<Call> := [];
    var names: set<string> := {};
    for i := 0 to |items|
      invariant Taken(items, i, calls) && names == Names(calls)
    {
      var entry := items[i];
      if !GoodCall(entry) {
        return None;
      }
      TakeCall(items, i, calls);
      var call := ToCall(entry);
      if call.name in names {
        return None;
      }
      names := names + {call.name};
      calls := calls + [call];
    }
    return Some(calls);
  }

  /** Fails closed: a claim comes out only if the raw object denotes it, and one
      comes out whenever the object denotes any. */
  method ParseClaim(raw: Value, parseRelation: string -> Option<Relation>) returns (r: Option<Claim>)
    ensures r.Some? ==> Denotes(raw, parseRelation, r.value)
    ensures r.None? ==> forall claim :: !Denotes(raw, parseRelation, claim)
  {
    if !raw.Obj? {
      return None;
    }
    var moduleName, functionName := Get(raw.fields, "module"), Get(raw.fields, "function");
    if !moduleName.Str? || !IsPublicIdent(moduleName.s) {
      return None;
    }
    if !functionName.Str? || !IsTarget(functionName.s) {
      return None;
    }
    var callsRaw := Get(raw.fields, "calls");
    if !callsRaw.List? || !(1 <= |callsRaw.items| <= MAX_CALLS) {
      return None;
    }
    var parsed := ParseCalls(callsRaw.items);
    if parsed.None? {
      return None;
    }
    var calls := parsed.value;
    forall claim | Denotes(raw, parseRelation, claim) ensures claim.calls == calls {
      CallsAreUnique(callsRaw.items, claim.calls, calls);
    }
    var claimRaw := Get(raw.fields, "claim");
    var relation: Option<Relation> := None;
    if !claimRaw.Null? {
      if !claimRaw.Str? {
        return None;
      }
      relation := parseRelation(claimRaw.s);
      if relation.None? || !KnownRelation(relation.value, Names(calls)) {
        return None;
      }
    }
    if relation.None? && !(exists c :: c in calls && StatesOutcome(c)) {
      return None;
    }
    return Some(Claim(moduleName.s, functionName.s, calls, relation));
  }

  // ----- Comparing values as Python does -----

  predicate IsNumber(v: Value) {
    v.Bool? || v.Int? || v.Real?
  }

  function NumberOf(v: Value): real
    requires IsNumber(v)
  {
    match v
    case Bool(b) => if b then 1.0 else 0.0
    case Int(n) => n as real
    case Real(r) => r
  }

  predicate PyEqual(l: Value, r: Value) {
    if IsNumber(l) && IsNumber(r) then NumberOf(l) == NumberOf(r)
    else if l.List? && r.List? then
      |l.items| == |r.items| && forall i :: 0 <= i < |l.items| ==> PyEqual(l.items[i], r.items[i])
    else if l.Obj? && r.Obj? then
      l.fields.Keys == r.fields.Keys && forall k :: k in l.fields ==> k in r.fields && PyEqual(l.fields[k], r.fields[k])
    else l == r
  }

  predicate TextLess(s: string, t: string) {
    t != [] && (s == [] || s[0] < t[0] || (s[0] == t[0] && TextLess(s[1..], t[1..])))
  }

  /** None where Python raises TypeError. */
  function PyLess(l: Value, r: Value): Option<bool>
    decreases l, 1
  {
    if IsNumber(l) && IsNumber(r) then Some(NumberOf(l) < NumberOf(r))
    else if l.Str? && r.Str? then Some(TextLess(l.s, r.s))
    else if l.List? && r.List? then ListLess(l.items, r.items)
    else None
  }

  function ListLess(l: seq<Value>, r: seq<Value>): Option<bool>
    decreases l, 0
  {
    if r == [] then Some(false)
    else if l == [] then Some(true)
    else if PyEqual(l[0], r[0]) then ListLess(l[1..], r[1..])
    else PyLess(l[0], r[0])
  }

  function PyCompare(op: CompareOp, l: Value, r: Value): Option<bool> {
    match op
    case Lt => PyLess(l, r)
    case Gt => PyLess(r, l)
    case LtE => var less := PyLess(l, r); if less.None? then None else Some(less.value || PyEqual(l, r))
    case GtE => var less := PyLess(r, l); if less.None? then None else Some(less.value || PyEqual(l, r))
    case Eq => Some(PyEqual(l, r))
    case NotEq => Some(!PyEqual(l, r))
  }

  /** Numbers, booleans among them, compare by value. */
  lemma ComparesNumbers(op: CompareOp, l: Value, r: Value)
    requires IsNumber(l) && IsNumber(r)
    ensures var x, y := NumberOf(l), NumberOf(r);
            PyCompare(op, l, r) ==
              match op
              case Lt => Some(x < y)
              case LtE => Some(x <= y)
              case Gt => Some(x > y)
              case GtE => Some(x >= y)
              case Eq => Some(x == y)
              case NotEq => Some(x != y)
  {
  }

  /** The first place where `s` and `t` part, or the end of the shorter. */
  ghost predicate PartAt(s: string, t: string, k: nat) {
    && k <= |s| && k <= |t| && s[..k] == t[..k]
    && (k < |s| && k < |t| ==> s[k] != t[k])
  }

  /** A string comes before another if it is a proper prefix of it, or smaller in
      the first character in which they differ. */
  ghost predicate TextBefore(s: string, t: string) {
    exists k: nat :: PartAt(s, t, k) && k < |t| && (k == |s| || (k < |s| && s[k] < t[k]))
  }

  lemma PartIsOne(s: string, t: string, k: nat)
    requires s != [] && t != [] && s[0] == t[0]
    ensures PartAt(s[1..], t[1..], k) <==> PartAt(s, t, k + 1)
  {
    if k <= |s[1..]| && k <= |t[1..]| {
      assert s[..k + 1] == [s[0]] + s[1..][..k] && t[..k + 1] == [t[0]] + t[1..][..k];
      assert s[..k + 1] == t[..k + 1] ==> s[1..][..k] == s[..k + 1][1..] == t[1..][..k];
    }
  }

  lemma PartsAtOnce(s: string, t: string, k: nat)
    requires s == [] || t == [] || s[0] != t[0]
    ensures PartAt(s, t, k) ==> k == 0
  {
    assert 0 < k <= |s| ==> s[..k][0] == s[0];
    assert 0 < k <= |t| ==> t[..k][0] == t[0];
  }

  lemma {:induction false} TextLessIff(s: string, t: string)
    ensures TextLess(s, t) <==> TextBefore(s, t)
    decreases |t|
  {
    if s == [] || t == [] || s[0] != t[0] {
      assert PartAt(s, t, 0);
      forall k: nat ensures PartAt(s, t, k) ==> k == 0 {
        PartsAtOnce(s, t, k);
      }
    } else {
      TextLessIff(s[1..], t[1..]);
      if TextBefore(s[1..], t[1..]) {
        var k: nat :| PartAt(s[1..], t[1..], k) && k < |t[1..]| &&
          (k == |s[1..]| || (k < |s[1..]| && s[1..][k] < t[1..][k]));
        PartIsOne(s, t, k);
        assert PartAt(s, t, k + 1);
      }
      if TextBefore(s, t) {
        var k: nat :| PartAt(s, t, k) && k < |t| && (k == |s| || (k < |s| && s[k] < t[k]));
        assert k > 0;
        PartIsOne(s, t, k - 1);
        assert PartAt(s[1..], t[1..], k - 1);
      }
    }
  }

  /** Strings compare as in a dictionary. */
  lemma ComparesText(op: CompareOp, s: string, t: string)
    ensures PyCompare(op, Str(s), Str(t)) ==
              match op
              case Lt => Some(TextBefore(s, t))
              case LtE => Some(TextBefore(s, t) || s == t)
              case Gt => Some(TextBefore(t, s))
              case GtE => Some(TextBefore(t, s) || s == t)
              case Eq => Some(s == t)
              case NotEq => Some(s != t)
  {
    TextLessIff(s, t);
    TextLessIff(t, s);
  }

  /** Lists compare by the first entries that are not equal, or by length. */
  lemma {:induction false} ComparesLists(l: seq<Value>, r: seq<Value>, k: nat)
    requires k <= |l| && k <= |r| && forall i :: 0 <= i < k ==> PyEqual(l[i], r[i])
    requires k < |l| && k < |r| ==> !PyEqual(l[k], r[k])
    requires k == |l| || k == |r| || !PyEqual(l[k], r[k])
    ensures PyCompare(Lt, List(l), List(r)) == ListLess(l, r) ==
            if k == |r| then Some(false) else if k == |l| then Some(true) else PyCompare(Lt, l[k], r[k])
    decreases k
  {
    if k > 0 {
      var i := k - 1;
      assert PyEqual(l[0], r[0]) && l != [] && r != [];
      assert forall j :: 0 <= j < i ==> l[1..][j] == l[j + 1] && r[1..][j] == r[j + 1];
      assert ListLess(l, r) == ListLess(l[1..], r[1..]);
      assert (k < |l| ==> l[1..][i] == l[k]) && (k < |r| ==> r[1..][i] == r[k]);
      ComparesLists(l[1..], r[1..], i);
    }
  }

  /** Anything else can only be told apart: ordering it raises. */
  lemma ComparesOthers(l: Value, r: Value)
    requires !(IsNumber(l) && IsNumber(r)) && !(l.Str? && r.Str?) && !(l.List? && r.List?)
    ensures PyCompare(Lt, l, r) == PyCompare(LtE, l, r) == PyCompare(Gt, l, r) == PyCompare(GtE, l, r) == None
    ensures PyCompare(Eq, l, r).Some? && PyCompare(NotEq, l, r) == Some(!PyCompare(Eq, l, r).value)
  {
  }

  function Abs(x: real): real {
    if x < 0.0 then -x else x
  }

  function Max(x: real, y: real): real {
    if x < y then y else x
  }

  predicate Close(x: real, y: real) {
    Abs(x - y) <= Max(ABS_TOL, REL_TOL * Max(Abs(x), Abs(y)))
  }

  /** Within a billionth of each other, or within a millionth of one of them. */
  lemma CloseIff(x: real, y: real)
    ensures Close(x, y) <==>
            || Within(x, y, 0.000000001)
            || Within(x, y, if x < 0.0 then -0.000001 * x else 0.000001 * x)
            || Within(x, y, if y < 0.0 then -0.000001 * y else 0.000001 * y)
  {
  }

  predicate Within(x: real, y: real, bound: real) {
    x - y <= bound && y - x <= bound
  }

  lemma CloseIsSymmetric(x: real, y: real)
    ensures Close(x, x) && (Close(x, y) <==> Close(y, x))
  {
    assert Abs(x - y) == Abs(y - x);
    assert Max(Abs(x), Abs(y)) == Max(Abs(y), Abs(x));
  }

  /** A stated value against a real one: booleans only match themselves, numbers
      match within the tolerance. */
  predicate Matches(expected: Value, actual: Value) {
    if expected.Bool? || actual.Bool? then expected == actual
    else if IsNumber(expected) && IsNumber(actual) then
      Close(NumberOf(expected), NumberOf(actual))
    else PyEqual(expected, actual)
  }

  /** A stated boolean is only ever matched by itself, whatever Python makes of
      `True == 1`; numbers match within the tolerance; strings, null and anything of
      different kinds only if equal. */
  lemma MatchesIff(v: Value, w: Value)
    ensures v.Bool? || w.Bool? ==> (Matches(v, w) <==> v == w)
    ensures (v.Int? || v.Real?) && (w.Int? || w.Real?) ==> (Matches(v, w) <==> Close(NumberOf(v), NumberOf(w)))
    ensures v.Str? || w.Str? || v.Null? || w.Null? ==> (Matches(v, w) <==> v == w)
  {
  }

  /** Claims and observations may trade places, and a value matches itself. */
  lemma MatchesIsSymmetric(v: Value, w: Value)
    ensures Matches(v, v)
    ensures Matches(v, w) <==> Matches(w, v)
  {
    PyEqualIsEquivalence(v, w);
    if IsNumber(v) {
      CloseIsSymmetric(NumberOf(v), if IsNumber(w) then NumberOf(w) else 0.0);
    }
  }

  lemma {:induction false} PyEqualIsEquivalence(v: Value, w: Value)
    ensures PyEqual(v, v)
    ensures PyEqual(v, w) <==> PyEqual(w, v)
  {
    if v.List? {
      forall i | 0 <= i < |v.items| ensures PyEqual(v.items[i], v.items[i]) {
        PyEqualIsEquivalence(v.items[i], v.items[i]);
      }
      if w.List? && |v.items| == |w.items| {
        forall i | 0 <= i < |v.items| ensures PyEqual(v.items[i], w.items[i]) <==> PyEqual(w.items[i], v.items[i]) {
          PyEqualIsEquivalence(v.items[i], w.items[i]);
        }
      }
    } else if v.Obj? {
      forall k | k in v.fields ensures PyEqual(v.fields[k], v.fields[k]) {
        PyEqualIsEquivalence(v.fields[k], v.fields[k]);
      }
      if w.Obj? && v.fields.Keys == w.fields.Keys {
        forall k | k in v.fields ensures k in w.fields &&
            (PyEqual(v.fields[k], w.fields[k]) <==> PyEqual(w.fields[k], v.fields[k])) {
          PyEqualIsEquivalence(v.fields[k], w.fields[k]);
        }
      }
    }
  }

  // ----- Relations -----

  /** None where looking the operand up raises. */
  function ValueOf(o: Operand, observed: map<string, Value>): Option<Value> {
    match o
    case Const(v) => Some(v)
    case Name(id) => if id in observed then Some(observed[id]) else None
    case Nested(_) => None
  }

  function OperandAt(r: Relation, i: nat): Operand
    requires i <= |r.rest|
  {
    if i == 0 then r.first else r.rest[i - 1].1
  }

  /** The `i`-th adjacent comparison of a chain; None where evaluating it raises. */
  function CompareAt(r: Relation, observed: map<string, Value>, i: nat): Option<bool>
    requires i < |r.rest|
  {
    var left, right := ValueOf(OperandAt(r, i), observed), ValueOf(OperandAt(r, i + 1), observed);
    if left.None? || right.None? then None else PyCompare(r.rest[i].0, left.value, right.value)
  }

  ghost predicate HoldsUpTo(r: Relation, observed: map<string, Value>, n: nat)
    requires n <= |r.rest|
  {
    forall i :: 0 <= i < n ==> CompareAt(r, observed, i) == Some(true)
  }

  /** The first comparison that is not true is `v`, or there is nothing to start from. */
  ghost predicate StopsWith(r: Relation, observed: map<string, Value>, v: Option<bool>) {
    if ValueOf(r.first, observed).None? then v == None
    else exists i: nat :: StopsAt(r, observed, i, v)
  }

  ghost predicate StopsAt(r: Relation, observed: map<string, Value>, i: nat, v: Option<bool>) {
    i < |r.rest| && HoldsUpTo(r, observed, i) && CompareAt(r, observed, i) == v
  }

  /** A chain holds if all its adjacent comparisons do; it is false, or raises, at
      the first one that is not true. */
  method EvaluateRelation(r: Relation, observed: map<string, Value>) returns (holds: Option<bool>)
    ensures holds == Some(true) <==> HoldsUpTo(r, observed, |r.rest|) && ValueOf(r.first, observed).Some?
    ensures forall v :: v != Some(true) ==> (holds == v <==> StopsWith(r, observed, v))
  {
    var left := ValueOf(r.first, observed);
    if left.None? {
      return None;
    }
    for i := 0 to |r.rest|
      invariant HoldsUpTo(r, observed, i)
      invariant left.Some? && left == ValueOf(OperandAt(r, i), observed)
    {
      var right := ValueOf(r.rest[i].1, observed);
      if right.None? {
        assert StopsAt(r, observed, i, None);
        return None;
      }
      var ok := PyCompare(r.rest[i].0, left.value, right.value);
      if ok != Some(true) {
        assert StopsAt(r, observed, i, ok);
        return ok;
      }
      left := right;
    }
    return Some(true);
  }

  // ----- Running and judging -----

  datatype Reaction = Returned(value: Value) | Raised(exception: string)

  /** What the code does on each call; `Unloadable` if its target cannot be resolved or the runner fails. */
  datatype Behaviour = Unloadable | Loaded(react: Call -> Reaction)

  /** The fixed runner: every call is made, a raise is recorded as data. */
  method RunCalls(calls: seq<Call>, react: Call -> Reaction)
    returns (observed: map<string, Value>, raised: map<string, string>)
    requires DistinctNames(calls)
    ensures Reported(calls, react, observed, raised)
  {
    observed, raised := map[], map[];
    for i := 0 to |calls|
      invariant observed.Keys == (set c | c in calls[..i] :: c.name) && raised.Keys <= observed.Keys
      invariant forall j :: 0 <= j < i ==>
                  calls[j].name in observed &&
                  match react(calls[j])
                  case Returned(v) => observed[calls[j].name] == v && calls[j].name !in raised
                  case Raised(e) =>
                    observed[calls[j].name] == Null && calls[j].name in raised && raised[calls[j].name] == e
    {
      var call := calls[i];
      assert calls[..i + 1] == calls[..i] + [call];
      match react(call) {
        case Raised(e) =>
          raised := raised[call.name := e];
          observed := observed[call.name := Null];
        case Returned(v) =>
          observed := observed[call.name := v];
      }
    }
    assert calls[..|calls|] == calls;
  }

  /** What a call claims of itself is what happened. */
  predicate CallHolds(c: Call, reaction: Reaction) {
    if c.expectRaises.Some? then reaction == Raised(c.expectRaises.value)
    else reaction.Returned? && (c.expected.Null? || Matches(c.expected, reaction.value))
  }

  /** A call that states an exception needs that one; any other may not raise, and
      what it states, if anything, must match. */
  lemma CallMeans(c: Call, reaction: Reaction)
    ensures reaction.Raised? ==> (CallHolds(c, reaction) <==> c.expectRaises == Some(reaction.exception))
    ensures reaction.Returned? ==>
              (CallHolds(c, reaction) <==>
               c.expectRaises == None && (c.expected == Null || Matches(c.expected, reaction.value)))
  {
  }

  ghost predicate CallsHold(claim: Claim, react: Call -> Reaction) {
    forall c :: c in claim.calls ==> CallHolds(c, react(c))
  }

  ghost predicate NoneRaised(claim: Claim, react: Call -> Reaction) {
    forall c :: c in claim.calls ==> react(c).Returned?
  }

  /** The values the relation speaks about. */
  ghost predicate IsObserved(observed: map<string, Value>, claim: Claim, react: Call -> Reaction) {
    observed.Keys == Names(claim.calls) &&
    forall c :: c in claim.calls && c.name in observed ==> react(c) == Returned(observed[c.name])
  }

  /** The relation, if there is one, is the conjunction of its adjacent
      comparisons over the returned values, and no call raised. */
  ghost predicate RelationHolds(claim: Claim, react: Call -> Reaction) {
    claim.relation.Some? ==>
      NoneRaised(claim, react) &&
      exists observed :: IsObserved(observed, claim, react) &&
        HoldsUpTo(claim.relation.value, observed, |claim.relation.value.rest|) &&
            ValueOf(claim.relation.value.first, observed).Some?
  }

  /** No call raised, and over the returned values the relation stops with `v`. */
  ghost predicate RelationStops(claim: Claim, react: Call -> Reaction, v: Option<bool>) {
    claim.relation.Some? && NoneRaised(claim, react) &&
    exists observed :: IsObserved(observed, claim, react) && StopsWith(claim.relation.value, observed, v)
  }

  datatype Judgement = Status(status: CounterexampleStatus) | Uncaught

  /** What the runner reports about calls that did what `react` says. */
  ghost predicate Reported(
    calls: seq<Call>, react: Call -> Reaction, observed: map<string, Value>, raised: map<string, string>)
  {
    && observed.Keys == Names(calls) && raised.Keys <= Names(calls)
    && forall c :: c in calls && c.name in observed ==>
         match react(c)
         case Returned(v) => observed[c.name] == v && c.name !in raised
         case Raised(e) => observed[c.name] == Null && c.name in raised && raised[c.name] == e
  }

  predicate ReportedCallHolds(call: Call, observed: map<string, Value>, raised: map<string, string>)
    requires call.name in observed
  {
    if call.expectRaises.Some? then call.name in raised && raised[call.name] == call.expectRaises.value
    else call.name !in raised && (call.expected.Null? || Matches(call.expected, observed[call.name]))
  }

  lemma ReportTellsCall(
    calls: seq<Call>, react: Call -> Reaction, observed: map<string, Value>, raised: map<string, string>, c: Call)
    requires Reported(calls, react, observed, raised) && c in calls
    ensures c.name in observed
    ensures ReportedCallHolds(c, observed, raised) <==> CallHolds(c, react(c))
  {
    assert c.name in Names(calls);
  }

  /** Whether every call's own claim is what was reported. */
  method JudgeCalls(
    claim: Claim, ghost react: Call -> Reaction, observed: map<string, Value>, raised: map<string, string>)
    returns (hold: bool)
    requires Reported(claim.calls, react, observed, raised)
    ensures hold <==> CallsHold(claim, react)
  {
    for i := 0 to |claim.calls|
      invariant forall k :: 0 <= k < i ==> CallHolds(claim.calls[k], react(claim.calls[k]))
    {
      var call := claim.calls[i];
      ReportTellsCall(claim.calls, react, observed, raised, call);
      if !ReportedCallHolds(call, observed, raised) {
        return false;
      }
    }
    return true;
  }

  lemma ReportedObservation(
    claim: Claim, react: Call -> Reaction, observed: map<string, Value>, raised: map<string, string>)
    requires Reported(claim.calls, react, observed, raised)
    ensures raised == map[] <==> NoneRaised(claim, react)
    ensures raised == map[] ==> IsObserved(observed, claim, react)
  {
    forall c | c in claim.calls ensures c.name in observed {
      assert c.name in Names(claim.calls);
    }
    if raised != map[] {
      SomeRaised(claim, react, raised);
    }
  }

  /** The relation over what was reported, once every call holds. */
  method JudgeRelation(
    claim: Claim, ghost react: Call -> Reaction, observed: map<string, Value>, raised: map<string, string>)
    returns (j: Judgement)
    requires Reported(claim.calls, react, observed, raised)
    ensures j == Status(Verified) <==> RelationHolds(claim, react)
    ensures j == Status(Refuted) <==> RelationStops(claim, react, Some(false))
    ensures j == Uncaught <==> RelationStops(claim, react, None)
    ensures j == Status(Unavailable) <==> claim.relation.Some? && !NoneRaised(claim, react)
    ensures j != Status(NoClaim)
  {
    if claim.relation.None? {
      return Status(Verified);
    }
    ReportedObservation(claim, react, observed, raised);
    if raised != map[] {
      return Status(Unavailable);
    }
    ObservedIsUnique(claim, react, observed);
    var holds := EvaluateRelation(claim.relation.value, observed);
    if holds == None {
      return Uncaught;
    }
    return Status(if holds.value then Verified else Refuted);
  }

  /** VERIFIED exactly for a claim that ran and holds in every part. A false value
      or exception, or a false relation, is REFUTED; what could not be judged is
      UNAVAILABLE; comparing incomparable values raises past the caller. */
  method JudgeClaim(claim: Claim, behaviour: Behaviour) returns (j: Judgement)
    requires DistinctNames(claim.calls)
    ensures j == Status(Verified) <==>
            behaviour.Loaded? && CallsHold(claim, behaviour.react) && RelationHolds(claim, behaviour.react)
    ensures j == Status(Refuted) <==>
            behaviour.Loaded? && (!CallsHold(claim, behaviour.react) ||
                RelationStops(claim, behaviour.react, Some(false)))
    ensures j == Uncaught <==>
            behaviour.Loaded? && CallsHold(claim, behaviour.react) && RelationStops(claim, behaviour.react, None)
    ensures j == Status(Unavailable) <==>
            behaviour.Unloadable? ||
            (CallsHold(claim, behaviour.react) && claim.relation.Some? && !NoneRaised(claim, behaviour.react))
    ensures j != Status(NoClaim)
  {
    if behaviour.Unloadable? {
      return Status(Unavailable);
    }
    var observed, raised := RunCalls(claim.calls, behaviour.react);
    var hold := JudgeCalls(claim, behaviour.react, observed, raised);
    if !hold {
      return Status(Refuted);
    }
    j := JudgeRelation(claim, behaviour.react, observed, raised);
  }

  lemma SomeRaised(claim: Claim, react: Call -> Reaction, raised: map<string, string>)
    requires raised != map[] && raised.Keys <= Names(claim.calls)
    requires forall c :: c in claim.calls && react(c).Returned? ==> c.name !in raised
    ensures !NoneRaised(claim, react)
  {
    var name :| name in raised;
    var c :| c in claim.calls && c.name == name;
    assert react(c).Raised?;
  }

  lemma ObservedIsUnique(claim: Claim, react: Call -> Reaction, observed: map<string, Value>)
    requires IsObserved(observed, claim, react)
    ensures forall other :: IsObserved(other, claim, react) ==> other == observed
  {
    forall other | IsObserved(other, claim, react) ensures other == observed {
      forall name | name in observed ensures other[name] == observed[name] {
        var c :| c in claim.calls && c.name == name;
        assert react(c) == Returned(observed[name]) && react(c) == Returned(other[name]);
      }
    }
  }

  lemma ClaimIsUnique(raw: Value, parseRelation: string -> Option<Relation>, claim: Claim, other: Claim)
    requires Denotes(raw, parseRelation, claim) && Denotes(raw, parseRelation, other)
    ensures claim == other
  {
    CallsAreUnique(Get(raw.fields, "calls").items, claim.calls, other.calls);
  }

  /** A claim given as text is decoded first; undecodable text denotes nothing. */
  function Decoded(raw: Value, decode: string -> Option<Value>): Value {
    if raw.Str? then (if decode(raw.s).Some? then decode(raw.s).value else Null) else raw
  }

  predicate IsNoClaim(raw: Value) {
    raw == Null || raw == Str("") || raw == Obj(map[])
  }

  /** The raw answer denotes a claim that loads and holds in every part. */
  ghost predicate ClaimHeld(
    raw: Value, decode: string -> Option<Value>, parseRelation: string -> Option<Relation>, behave: Claim -> Behaviour)
  {
    !IsNoClaim(raw) &&
    exists claim ::
      Denotes(Decoded(raw, decode), parseRelation, claim) && behave(claim).Loaded? &&
      CallsHold(claim, behave(claim).react) && RelationHolds(claim, behave(claim).react)
  }

  /** The raw answer denotes a claim that loads and is wrong about a call or in its relation. */
  ghost predicate ClaimRefuted(
    raw: Value, decode: string -> Option<Value>, parseRelation: string -> Option<Relation>, behave: Claim -> Behaviour)
  {
    !IsNoClaim(raw) &&
    exists claim ::
      Denotes(Decoded(raw, decode), parseRelation, claim) && behave(claim).Loaded? &&
      (!CallsHold(claim, behave(claim).react) || RelationStops(claim, behave(claim).react, Some(false)))
  }

  /** The raw answer denotes a claim whose calls hold and whose relation cannot be evaluated. */
  ghost predicate ClaimEscapes(
    raw: Value, decode: string -> Option<Value>, parseRelation: string -> Option<Relation>, behave: Claim -> Behaviour)
  {
    !IsNoClaim(raw) &&
    exists claim ::
      Denotes(Decoded(raw, decode), parseRelation, claim) && behave(claim).Loaded? &&
      CallsHold(claim, behave(claim).react) && RelationStops(claim, behave(claim).react, None)
  }

  /** The whole path from a raw answer to the status the review gate reads. */
  method VerifyCounterexample(
    raw: Value, decode: string -> Option<Value>, parseRelation: string -> Option<Relation>, behave: Claim -> Behaviour)
    returns (j: Judgement)
    ensures j == Status(NoClaim) <==> IsNoClaim(raw)
    ensures j == Status(Verified) <==> ClaimHeld(raw, decode, parseRelation, behave)
    ensures j == Status(Refuted) <==> ClaimRefuted(raw, decode, parseRelation, behave)
    ensures j == Uncaught <==> ClaimEscapes(raw, decode, parseRelation, behave)
    ensures j == Status(Unavailable) <==>
            !IsNoClaim(raw) && !ClaimHeld(raw, decode, parseRelation, behave) &&
            !ClaimRefuted(raw, decode, parseRelation, behave) && !ClaimEscapes(raw, decode, parseRelation, behave)
  {
    if IsNoClaim(raw) {
      return Status(NoClaim);
    }
    var parsed := ParseClaim(Decoded(raw, decode), parseRelation);
    if parsed.None? {
      return Status(Unavailable);
    }
    forall claim | Denotes(Decoded(raw, decode), parseRelation, claim) ensures claim == parsed.value {
      ClaimIsUnique(Decoded(raw, decode), parseRelation, claim, parsed.value);
    }
    j := JudgeClaim(parsed.value, behave(parsed.value));
    JudgementIsOneOf(j);
  }

  lemma JudgementIsOneOf(j: Judgement)
    ensures j == Uncaught || j == Status(NoClaim) || j == Status(Verified) || j == Status(Refuted) ||
            j == Status(Unavailable)
  {
    match j {
      case Uncaught =>
      case Status(status) =>
        match status {
          case NoClaim =>
          case Verified =>
          case Refuted =>
          case Unavailable =>
        }
    }
  }

  /** A verdict on a green suite with the counterexample executed, as the chain
      does it: a rejection falls if and only if the diff is in the scope of named
      files and the raw claim does not denote one that loads and holds in every
      part. None where judging raises. */
  method ReviewWithCounterexample(
    verdict: ReviewVerdict, changed: seq<string>, report: RootCauseReport, raw: Value, decode: string -> Option<Value>,
    parseRelation: string -> Option<Relation>, behave: Claim -> Behaviour)
    returns (checked: Option<ReviewVerdict>)
    ensures checked.None? <==> !verdict.approved && ClaimEscapes(raw, decode, parseRelation, behave)
    ensures checked.Some? && !verdict.approved ==>
              (checked.value.approved <==>
               report.affected != [] && InScope(changed, report.affected) &&
               !ClaimHeld(raw, decode, parseRelation, behave))
    ensures checked.Some? && verdict.approved ==>
              (checked.value.approved <==>
               verdict.addressesSymptom && (report.affected == [] || InScope(changed, report.affected)))
  {
    var status := NoClaim;
    if !verdict.approved {
      var j := VerifyCounterexample(raw, decode, parseRelation, behave);
      if j.Uncaught? {
        return None;
      }
      status := j.status;
    }
    GateIff(verdict, changed, report, true, status);
    return Some(EnforceReviewChecks(verdict, changed, report, true, status));
  }
}
