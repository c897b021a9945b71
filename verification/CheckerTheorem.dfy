/**
 What a whole run of the checker has done, whatever the order of the functions, and which dereferences
 it reports.
 */
module CheckerTheorem {
  import opened Wrappers
  import opened Checker

  // A run from the start

  const START := Log({}, [], multiset{})

  /** The least set of functions that contains the roots and what its members call. */
  ghost predicate LeastClosed(program: Program, roots: set<FuncId>, s: set<FuncId>) {
    && roots <= s && ClosedUnder(program, s)
    && forall t | roots <= t && ClosedUnder(program, t) :: s <= t
  }

  /**
   A run from the start checks exactly the functions reached from its roots, each once, and reports its
   own errors and those of the bodies of these functions.
   */
  lemma RunChecksReached(program: Program, end: Log, own: multiset<Error>, roots: set<FuncId>)
    requires Goes(program, START, end, own, roots)
    ensures LeastClosed(program, roots, end.checked)
    ensures NoRepeats(end.order) && SetOf(end.order) == end.checked
    ensures end.errors == own + AllBodyErrors(program, end.order)
  {
    assert StepAt(0, program, START, end, own, roots);
    assert Entered(START, end) == end.order;
    forall f | f in end.checked
      ensures Calls(program, f) <= end.checked
    {
      assert f !in START.checked;
    }
    forall t | roots <= t && ClosedUnder(program, t)
      ensures end.checked <= t
    {
      assert end.checked <= START.checked + t;
    }
  }

  /** Two runs with the same roots and the same errors of their own end with the same functions checked
      and the same errors, in whatever order they went. */
  lemma RunsAgree(program: Program, end: Log, end': Log, own: multiset<Error>, roots: set<FuncId>)
    requires Goes(program, START, end, own, roots) && Goes(program, START, end', own, roots)
    ensures end.checked == end'.checked && end.errors == end'.errors
  {
    RunChecksReached(program, end, own, roots);
    RunChecksReached(program, end', own, roots);
    assert end.checked <= end'.checked && end'.checked <= end.checked;
    BodyErrorsOfSet(program, end.order, end'.order);
  }

  lemma {:induction false} BodyErrorsOfSet(program: Program, a: seq<FuncId>, b: seq<FuncId>)
    requires NoRepeats(a) && NoRepeats(b) && SetOf(a) == SetOf(b)
    ensures AllBodyErrors(program, a) == AllBodyErrors(program, b)
    decreases |a|
  {
    if a == [] {
      HasFirst(b);
    } else {
      var front, last := a[..|a| - 1], a[|a| - 1];
      assert last in SetOf(a);
      var i :| 0 <= i < |b| && b[i] == last;
      RestOfSet(a, b, i);
      BodyErrorsOfSet(program, front, b[..i] + b[i + 1..]);
      WithoutOne(program, b, i);
    }
  }

  lemma HasFirst(b: seq<FuncId>)
    ensures b != [] ==> b[0] in SetOf(b)
  {
  }

  lemma WithoutOne(program: Program, b: seq<FuncId>, i: nat)
    requires i < |b|
    ensures AllBodyErrors(program, b) == AllBodyErrors(program, b[..i] + b[i + 1..]) + BodyErrors(program, b[i])
  {
    var pre, post := b[..i], b[i + 1..];
    assert b == pre + [b[i]] + post;
    AllBodyErrorsConcat(program, pre + [b[i]], post);
    AllBodyErrorsConcat(program, pre, [b[i]]);
    AllBodyErrorsConcat(program, pre, post);
    assert [b[i]][..0] == [];
  }

  lemma RestOfSet(a: seq<FuncId>, b: seq<FuncId>, i: nat)
    requires a != [] && NoRepeats(a) && NoRepeats(b) && SetOf(a) == SetOf(b) && i < |b| && b[i] == a[|a| - 1]
    ensures var rest := b[..i] + b[i + 1..]; NoRepeats(rest) && SetOf(a[..|a| - 1]) == SetOf(rest)
  {
    var front, last, rest := a[..|a| - 1], a[|a| - 1], b[..i] + b[i + 1..];
    forall j, k | 0 <= j < k < |rest|
      ensures rest[j] != rest[k]
    {
      assert rest[j] == b[if j < i then j else j + 1] && rest[k] == b[if k < i then k else k + 1];
    }
    forall f
      ensures f in front <==> f in rest
    {
      if f in front {
        assert f in SetOf(a) && f != last;
        var j :| 0 <= j < |b| && b[j] == f;
        assert rest[if j < i then j else j - 1] == f;
      }
      if f in rest {
        var j :| 0 <= j < |rest| && rest[j] == f;
        assert b[if j < i then j else j + 1] == f;
        assert f in SetOf(b) && f != last;
        assert f in a;
      }
    }
  }

  // Where errors come from

  /** The parts of a value that are visited: all but the default of a switch and the values its cases
      compare with, the step of a loop, and the base of a member access. */
  lemma VisitedParts(v: Value, part: Value)
    ensures part in Visited(v) <==>
      || (v.Dereference? && part == v.value)
      || ((v.Call? || v.ObjectInit?) && part in v.args)
      || (v.Block? && part in v.items)
      || (v.Conditional? && (part == v.condition || part == v.block || v.otherwise == Some(part)))
      || (v.WhileLoop? && (part == v.condition || part == v.body))
      || (v.Switch? && (part == v.scrutinee || part in v.cases))
      || (v.TryCatch? && (part == v.body || part in v.catches))
      || (v.Holder? && v.expr == Some(part))
  {
  }

  /** The value reached by going down into the visited parts. */
  function At(v: Value, path: seq<nat>): Option<Value>
    decreases path
  {
    if path == [] then Some(v)
    else if path[0] >= |Visited(v)| then None
    else At(Visited(v)[path[0]], path[1..])
  }

  /** Whether the way down leads through an unsafe block. */
  predicate InUnsafeBlock(v: Value, path: seq<nat>)
    decreases path
  {
    path != [] && path[0] < |Visited(v)|
    && ((v.Block? && v.isUnsafe) || InUnsafeBlock(Visited(v)[path[0]], path[1..]))
  }

  /** A call of a declared function. */
  predicate CallsOne(program: Program, v: Value, id: nat) {
    v.Call? && v.id == id && v.callee.Some? && v.callee.value in program
  }

  /** What an error is about: a dereference of a pointer, a call of a function that is implemented and unsafe, a
      call of one that is not implemented, or an assignment to a first operand that is not mutable. */
  predicate Raises(program: Program, v: Value, e: Error) {
    match e
    case PointerDereference(id) => v.Dereference? && v.isPointer && v.id == id
    case UnsafeCall(id) =>
      CallsOne(program, v, id) && program[v.callee.value].implemented && program[v.callee.value].isUnsafe
    case NotImplemented(id) => CallsOne(program, v, id) && !program[v.callee.value].implemented
    case ImmutableAssignment(id) => v.Call? && v.id == id && v.callee.Some? && v.reassigns && v.args != []
  }

  /** Dereferences of pointers and calls of unsafe functions are allowed where the context is unsafe. */
  predicate NeedsUnsafe(e: Error) {
    e.PointerDereference? || e.UnsafeCall?
  }

  /** The error's cause stands at the end of the path, and not in an unsafe block of `v` if that allows it. */
  predicate Exposed(program: Program, v: Value, path: seq<nat>, e: Error) {
    && At(v, path).Some? && Raises(program, At(v, path).value, e)
    && (NeedsUnsafe(e) ==> !InUnsafeBlock(v, path))
  }

  predicate Inside(v: Value, isUnsafe: bool) {
    isUnsafe || (v.Block? && v.isUnsafe)
  }

  predicate ReportsHere(program: Program, v: Value, isUnsafe: bool, e: Error) {
    Raises(program, v, e) && (NeedsUnsafe(e) ==> !isUnsafe)
  }

  lemma SomeIn(program: Program, e: Option<Value>, isUnsafe: bool)
    ensures ErrorsIn(program, Optional(e), isUnsafe) == if e.Some? then Errors(program, e.value, isUnsafe)
      else multiset{}
  {
    if e.Some? {
      assert Optional(e)[1..] == [];
    }
  }

  lemma ConsIn(program: Program, v: Value, rest: seq<Value>, isUnsafe: bool)
    ensures ErrorsIn(program, [v] + rest, isUnsafe) == Errors(program, v, isUnsafe) + ErrorsIn(program, rest, isUnsafe)
  {
    assert ([v] + rest)[1..] == rest;
  }

  lemma ErrorsOfPair(program: Program, a: Value, b: Value, e: Option<Value>, isUnsafe: bool)
    ensures ErrorsIn(program, [a, b] + Optional(e), isUnsafe)
      == Errors(program, a, isUnsafe) + Errors(program, b, isUnsafe) + ErrorsIn(program, Optional(e), isUnsafe)
  {
    assert [a, b] + Optional(e) == [a] + ([b] + Optional(e));
    ConsIn(program, a, [b] + Optional(e), isUnsafe);
    ConsIn(program, b, Optional(e), isUnsafe);
  }

  lemma ErrorsOfConditional(program: Program, v: Value, isUnsafe: bool)
    requires v.Conditional? || v.WhileLoop?
    ensures Errors(program, v, isUnsafe) == ErrorsIn(program, Visited(v), isUnsafe)
  {
    if v.Conditional? {
      ErrorsOfPair(program, v.condition, v.block, v.otherwise, isUnsafe);
      SomeIn(program, v.otherwise, isUnsafe);
    } else {
      assert [v.condition, v.body] + Optional(None) == [v.condition, v.body];
      ErrorsOfPair(program, v.condition, v.body, None, isUnsafe);
    }
  }

  lemma ErrorsOfSwitch(program: Program, v: Value, isUnsafe: bool)
    requires v.Switch? || v.TryCatch?
    ensures Errors(program, v, isUnsafe) == ErrorsIn(program, Visited(v), isUnsafe)
  {
    if v.Switch? {
      ConsIn(program, v.scrutinee, v.cases, isUnsafe);
    } else {
      ConsIn(program, v.body, v.catches, isUnsafe);
    }
  }

  lemma CallErrorsHere(program: Program, v: Value, isUnsafe: bool, e: Error)
    requires v.Call?
    ensures e in CallErrors(program, v.id, v.callee, isUnsafe) || (ChecksOperand(v) && e == ImmutableAssignment(v.id))
      <==> ReportsHere(program, v, isUnsafe, e)
  {
  }

  lemma OperandErrorsIn(program: Program, v: Value, isUnsafe: bool, e: Error)
    requires v.Call?
    ensures e in OperandErrors(program, v, isUnsafe) ==>
      (ChecksOperand(v) && e == ImmutableAssignment(v.id)) || e in ErrorsIn(program, v.args, isUnsafe)
    ensures ChecksOperand(v) ==> ImmutableAssignment(v.id) in OperandErrors(program, v, isUnsafe)
  {
  }

  lemma ErrorsOfCall(program: Program, v: Value, isUnsafe: bool, e: Error)
    requires v.Call?
    ensures e in Errors(program, v, isUnsafe)
      <==> ReportsHere(program, v, isUnsafe, e) || e in ErrorsIn(program, v.args, isUnsafe)
  {
    CallInParts(program, v, isUnsafe);
    CallErrorsHere(program, v, isUnsafe, e);
    OperandErrorsIn(program, v, isUnsafe, e);
  }

  lemma ErrorsOfDereference(program: Program, v: Value, isUnsafe: bool, e: Error)
    requires v.Dereference?
    ensures e in Errors(program, v, isUnsafe)
      <==> ReportsHere(program, v, isUnsafe, e) || e in ErrorsIn(program, Visited(v), isUnsafe)
  {
    SomeIn(program, Some(v.value), isUnsafe);
    assert e in DereferenceErrors(v.id, v.isPointer, isUnsafe) <==> ReportsHere(program, v, isUnsafe, e);
  }

  /** A call or a dereference reports its own cause once. */
  lemma ReportedOnce(program: Program, id: nat, callee: Option<FuncId>, isPointer: bool, isUnsafe: bool)
    ensures |CallErrors(program, id, callee, isUnsafe)| <= 1 && |DereferenceErrors(id, isPointer, isUnsafe)| <= 1
  {
  }

  /** An error of a value is its own or one of its visited parts'. */
  lemma ErrorsOfChildren(program: Program, v: Value, isUnsafe: bool, e: Error)
    ensures e in Errors(program, v, isUnsafe)
      <==> ReportsHere(program, v, isUnsafe, e) || e in ErrorsIn(program, Visited(v), Inside(v, isUnsafe))
  {
    if v.Dereference? {
      ErrorsOfDereference(program, v, isUnsafe, e);
    } else if v.Call? {
      ErrorsOfCall(program, v, isUnsafe, e);
    } else {
      ErrorsOfOther(program, v, isUnsafe);
    }
  }

  lemma ErrorsOfOther(program: Program, v: Value, isUnsafe: bool)
    requires !v.Dereference? && !v.Call?
    ensures Errors(program, v, isUnsafe) == ErrorsIn(program, Visited(v), Inside(v, isUnsafe))
  {
    if v.Conditional? || v.WhileLoop? {
      ErrorsOfConditional(program, v, isUnsafe);
    } else if v.Switch? || v.TryCatch? {
      ErrorsOfSwitch(program, v, isUnsafe);
    } else if v.Holder? {
      SomeIn(program, v.expr, isUnsafe);
    }
  }

  lemma {:induction false} InSomeValue(program: Program, values: seq<Value>, isUnsafe: bool, e: Error)
    ensures e in ErrorsIn(program, values, isUnsafe)
      <==> exists i :: 0 <= i < |values| && e in Errors(program, values[i], isUnsafe)
    decreases |values|
  {
    if values != [] {
      var rest := values[1..];
      InSomeValue(program, rest, isUnsafe, e);
      if e in ErrorsIn(program, rest, isUnsafe) {
        var i :| 0 <= i < |rest| && e in Errors(program, rest[i], isUnsafe);
        assert values[i + 1] == rest[i];
      }
      if exists i :: 0 <= i < |values| && e in Errors(program, values[i], isUnsafe) {
        var i :| 0 <= i < |values| && e in Errors(program, values[i], isUnsafe);
        assert i > 0 ==> rest[i - 1] == values[i];
      }
    }
  }

  lemma VisitedIsSmaller(v: Value, i: nat)
    requires i < |Visited(v)|
    ensures Visited(v)[i] < v
  {
  }

  lemma {:induction false} ReportedIsExposed(program: Program, v: Value, isUnsafe: bool, e: Error)
    returns (path: seq<nat>)
    requires e in Errors(program, v, isUnsafe)
    ensures (NeedsUnsafe(e) ==> !isUnsafe) && Exposed(program, v, path, e)
    decreases v
  {
    ErrorsOfChildren(program, v, isUnsafe, e);
    if ReportsHere(program, v, isUnsafe, e) {
      path := [];
    } else {
      InSomeValue(program, Visited(v), Inside(v, isUnsafe), e);
      var i :| 0 <= i < |Visited(v)| && e in Errors(program, Visited(v)[i], Inside(v, isUnsafe));
      VisitedIsSmaller(v, i);
      var below := ReportedIsExposed(program, Visited(v)[i], Inside(v, isUnsafe), e);
      ExposedBelow(program, v, i, below, e);
      path := [i] + below;
    }
  }

  lemma {:induction false} ExposedIsReported(program: Program, v: Value, isUnsafe: bool, path: seq<nat>, e: Error)
    requires Exposed(program, v, path, e) && (NeedsUnsafe(e) ==> !isUnsafe)
    ensures e in Errors(program, v, isUnsafe)
    decreases path
  {
    ErrorsOfChildren(program, v, isUnsafe, e);
    if path != [] {
      ExposedAbove(program, v, path, e);
      ExposedIsReported(program, Visited(v)[path[0]], Inside(v, isUnsafe), path[1..], e);
      InSomeValue(program, Visited(v), Inside(v, isUnsafe), e);
    }
  }

  /**
   A value reports an error exactly when visits lead to its cause, and, for what unsafe contexts allow, the
   context is not unsafe and the way leads through no unsafe block.
   */
  lemma ReportedIffExposed(program: Program, v: Value, isUnsafe: bool, e: Error)
    ensures e in Errors(program, v, isUnsafe)
      <==> (NeedsUnsafe(e) ==> !isUnsafe) && exists path :: Exposed(program, v, path, e)
  {
    if e in Errors(program, v, isUnsafe) {
      var path := ReportedIsExposed(program, v, isUnsafe, e);
    }
    if (NeedsUnsafe(e) ==> !isUnsafe) && exists path :: Exposed(program, v, path, e) {
      var path :| Exposed(program, v, path, e);
      ExposedIsReported(program, v, isUnsafe, path, e);
    }
  }

  lemma ExposedBelow(program: Program, v: Value, i: nat, path: seq<nat>, e: Error)
    requires i < |Visited(v)| && Exposed(program, Visited(v)[i], path, e)
    requires NeedsUnsafe(e) ==> !(v.Block? && v.isUnsafe)
    ensures Exposed(program, v, [i] + path, e)
  {
    assert ([i] + path)[1..] == path;
  }

  lemma ExposedAbove(program: Program, v: Value, path: seq<nat>, e: Error)
    requires path != [] && Exposed(program, v, path, e)
    ensures path[0] < |Visited(v)| && Exposed(program, Visited(v)[path[0]], path[1..], e)
    ensures NeedsUnsafe(e) ==> !(v.Block? && v.isUnsafe)
  {
  }

  /** An error whose cause is exposed in the body of `f`: an unsafe function allows in its body what unsafe
      contexts allow, unless the body is exempt. */
  ghost predicate ExposedInBody(program: Program, f: FuncId, e: Error) {
    && f in program && program[f].body.Some?
    && (NeedsUnsafe(e) ==> !program[f].isUnsafe || program[f].notBody)
    && exists path :: Exposed(program, program[f].body.value, path, e)
  }

  /** A function body is checked as its attributes say, whoever calls it. */
  lemma BodyReports(program: Program, f: FuncId, e: Error)
    ensures e in BodyErrors(program, f) <==> ExposedInBody(program, f, e)
  {
    if f in program && program[f].body.Some? {
      ReportedIffExposed(program, program[f].body.value, BodyIsUnsafe(program[f]), e);
    }
  }

  // Functions gone on to

  /** A call of `f`, or `f` used as a value. */
  predicate NamesFunction(v: Value, f: FuncId) {
    (v.Call? && v.callee == Some(f)) || (v.FunctionRef? && v.referred == f)
  }

  /** `f` is named at the end of the path. */
  predicate NamedAt(v: Value, path: seq<nat>, f: FuncId) {
    At(v, path).Some? && NamesFunction(At(v, path).value, f)
  }

  lemma CalleesInPair(a: Value, b: Value, e: Option<Value>)
    ensures CalleesIn([a, b] + Optional(e)) == Callees(a) + Callees(b) + CalleesIn(Optional(e))
  {
    assert ([a, b] + Optional(e))[1..] == [b] + Optional(e);
    assert ([b] + Optional(e))[1..] == Optional(e);
  }

  lemma CalleesInSome(e: Option<Value>)
    ensures CalleesIn(Optional(e)) == if e.Some? then Callees(e.value) else {}
  {
    if e.Some? {
      assert Optional(e)[1..] == [];
    }
  }

  lemma CalleesInCons(v: Value, rest: seq<Value>)
    ensures CalleesIn([v] + rest) == Callees(v) + CalleesIn(rest)
  {
    assert ([v] + rest)[1..] == rest;
  }

  /** A function a value leads to is named by it or by one of its visited parts. */
  lemma CalleesOfChildren(v: Value, f: FuncId)
    ensures f in Callees(v) <==> NamesFunction(v, f) || f in CalleesIn(Visited(v))
  {
    match v
    case Dereference(_, _, value) => CalleesInSome(Some(value));
    case Conditional(c, t, e) =>
      CalleesInPair(c, t, e);
      CalleesInSome(e);
    case WhileLoop(c, b, _) =>
      CalleesInPair(c, b, None);
      assert [c, b] + Optional(None) == [c, b];
    case Switch(s, cases, _, _) => CalleesInCons(s, cases);
    case TryCatch(b, catches) => CalleesInCons(b, catches);
    case Holder(e) => CalleesInSome(e);
    case _ =>
  }

  lemma {:induction false} CalledInSome(values: seq<Value>, f: FuncId)
    ensures f in CalleesIn(values) <==> exists i :: 0 <= i < |values| && f in Callees(values[i])
    decreases |values|
  {
    if values != [] {
      var rest := values[1..];
      CalledInSome(rest, f);
      if f in CalleesIn(rest) {
        var i :| 0 <= i < |rest| && f in Callees(rest[i]);
        assert values[i + 1] == rest[i];
      }
      if exists i :: 0 <= i < |values| && f in Callees(values[i]) {
        var i :| 0 <= i < |values| && f in Callees(values[i]);
        assert i > 0 ==> rest[i - 1] == values[i];
      }
    }
  }

  lemma {:induction false} CalleeIsNamed(v: Value, f: FuncId) returns (path: seq<nat>)
    requires f in Callees(v)
    ensures NamedAt(v, path, f)
    decreases v
  {
    CalleesOfChildren(v, f);
    if NamesFunction(v, f) {
      path := [];
    } else {
      CalledInSome(Visited(v), f);
      var i :| 0 <= i < |Visited(v)| && f in Callees(Visited(v)[i]);
      VisitedIsSmaller(v, i);
      var below := CalleeIsNamed(Visited(v)[i], f);
      path := [i] + below;
      assert path[1..] == below;
    }
  }

  lemma {:induction false} NamedIsCallee(v: Value, path: seq<nat>, f: FuncId)
    requires NamedAt(v, path, f)
    ensures f in Callees(v)
    decreases path
  {
    CalleesOfChildren(v, f);
    if path != [] {
      NamedIsCallee(Visited(v)[path[0]], path[1..], f);
      CalledInSome(Visited(v), f);
    }
  }

  /** A visit goes on to exactly the functions that are called or used as values where it comes to, in unsafe
      blocks too. */
  lemma CalleeIffNamed(v: Value, f: FuncId)
    ensures f in Callees(v) <==> exists path :: NamedAt(v, path, f)
  {
    if f in Callees(v) {
      var path := CalleeIsNamed(v, f);
    }
    if path :| NamedAt(v, path, f) {
      NamedIsCallee(v, path, f);
    }
  }

  /** What the first operand reports is reported twice where the call assigns to it. */
  lemma OperandReportedTwice(program: Program, v: Value, isUnsafe: bool, e: Error)
    requires v.Call? && v.callee.Some? && v.reassigns && v.args != []
    ensures Errors(program, v, isUnsafe)[e] >= 2 * Errors(program, v.args[0], isUnsafe)[e]
    ensures ImmutableAssignment(v.id) in Errors(program, v, isUnsafe)
  {
    CallInParts(program, v, isUnsafe);
    assert ErrorsIn(program, v.args, isUnsafe)
      == Errors(program, v.args[0], isUnsafe) + ErrorsIn(program, v.args[1..], isUnsafe);
    assert OperandErrors(program, v, isUnsafe)[e] >= Errors(program, v.args[0], isUnsafe)[e];
  }

  // Whole runs

  lemma {:induction false} InSomeBody(program: Program, fs: seq<FuncId>, e: Error)
    ensures e in AllBodyErrors(program, fs) <==> exists f :: f in fs && e in BodyErrors(program, f)
    decreases |fs|
  {
    if fs != [] {
      var front, last := fs[..|fs| - 1], fs[|fs| - 1];
      InSomeBody(program, front, e);
      assert fs == front + [last];
    }
  }

  /**
   A whole run, in whatever order: an error is one of the variables' or of the body of a function that
   the variables and the functions given lead to.
   */
  lemma RunReports(program: Program, end: Log, variables: seq<Value>, roots: set<FuncId>, e: Error)
    requires Goes(program, START, end, ErrorsIn(program, variables, false), roots)
    ensures e in end.errors
      <==> || (exists i :: 0 <= i < |variables| && e in Errors(program, variables[i], false))
           || (exists f :: f in end.checked && e in BodyErrors(program, f))
  {
    RunChecksReached(program, end, ErrorsIn(program, variables, false), roots);
    InSomeValue(program, variables, false, e);
    InSomeBody(program, end.order, e);
    assert forall f :: f in end.order <==> f in SetOf(end.order);
  }

  /**
   A run reports exactly the errors whose causes are exposed in a variable or in the body of a function it
   has checked, which are the functions reached from its roots.
   */
  lemma RunReportsExposed(program: Program, end: Log, variables: seq<Value>, roots: set<FuncId>, e: Error)
    requires Goes(program, START, end, ErrorsIn(program, variables, false), roots)
    ensures LeastClosed(program, roots, end.checked)
    ensures e in end.errors
      <==> || (exists i, path :: 0 <= i < |variables| && Exposed(program, variables[i], path, e))
           || (exists f :: f in end.checked && ExposedInBody(program, f, e))
  {
    RunChecksReached(program, end, ErrorsIn(program, variables, false), roots);
    RunReports(program, end, variables, roots, e);
    forall i | 0 <= i < |variables|
      ensures e in Errors(program, variables[i], false) <==> exists path :: Exposed(program, variables[i], path, e)
    {
      ReportedIffExposed(program, variables[i], false, e);
    }
    forall f
      ensures e in BodyErrors(program, f) <==> ExposedInBody(program, f, e)
    {
      BodyReports(program, f, e);
    }
  }

  /** A call of an unsafe function, for example: reported where the context is safe, not where it is unsafe. */
  lemma UnsafeCallReported(program: Program, f: FuncId, id: nat, isUnsafe: bool)
    requires f in program && program[f].implemented && program[f].isUnsafe
    ensures UnsafeCall(id) in Errors(program, Call(id, Some(f), false, []), isUnsafe) <==> !isUnsafe
  {
    var v := Call(id, Some(f), false, []);
    assert At(v, []) == Some(v);
    assert Raises(program, v, UnsafeCall(id));
    assert Exposed(program, v, [], UnsafeCall(id));
    ReportedIffExposed(program, v, isUnsafe, UnsafeCall(id));
  }
}
