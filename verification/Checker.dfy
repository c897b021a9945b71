/**
 The type checker's traversal of values and functions: which functions it checks, and which uses of
 unsafe operations it reports.
 */
module Checker {
  import opened Wrappers

  type FuncId = nat

  /**
   Values as the visits see them. A case of a `Switch` keeps the value it compares with, which is not
   visited; neither are its default, the step of a loop, nor the base an `IndexExtract` reads from.
   A call that `reassigns` is an assignment operator on a value that is not mutable.
   */
  datatype Value =
    | Leaf
    | Dereference(id: nat, isPointer: bool, value: Value)
    | Call(id: nat, callee: Option<FuncId>, reassigns: bool, args: seq<Value>)
    | FunctionRef(referred: FuncId)
    | ObjectInit(args: seq<Value>)
    | Block(isUnsafe: bool, items: seq<Value>)
    | Conditional(condition: Value, block: Value, otherwise: Option<Value>)
    | WhileLoop(condition: Value, body: Value, step: Option<Value>)
    | Switch(scrutinee: Value, cases: seq<Value>, caseValues: seq<Value>, fallback: Option<Value>)
    | TryCatch(body: Value, catches: seq<Value>)
    | IndexExtract(base: Value)
    | Holder(expr: Option<Value>) // a declaration, return, throw, cast, reference: at most one value

  /** `notBody` exempts the body of an unsafe function from its own attribute. */
  datatype Func = Func(isUnsafe: bool, notBody: bool, implemented: bool, body: Option<Value>)

  type Program = map<FuncId, Func>

  datatype Error =
    | PointerDereference(id: nat)
    | UnsafeCall(id: nat)
    | NotImplemented(id: nat)
    | ImmutableAssignment(id: nat)

  /** The children a visit goes on to, in its order. */
  function Visited(v: Value): seq<Value> {
    match v
    case Leaf => []
    case Dereference(_, _, value) => [value]
    case Call(_, _, _, args) => args
    case FunctionRef(_) => []
    case ObjectInit(args) => args
    case Block(_, items) => items
    case Conditional(c, t, e) => [c, t] + Optional(e)
    case WhileLoop(c, b, _) => [c, b]
    case Switch(s, cases, _, _) => [s] + cases
    case TryCatch(b, catches) => [b] + catches
    case IndexExtract(_) => []
    case Holder(e) => Optional(e)
  }

  function Optional(e: Option<Value>): seq<Value> {
    if e.Some? then [e.value] else []
  }

  // What one value reports, not looking into callees

  function CallErrors(program: Program, id: nat, callee: Option<FuncId>, isUnsafe: bool): multiset<Error> {
    if callee.None? || callee.value !in program then multiset{}
    else if !program[callee.value].implemented then multiset{NotImplemented(id)}
    else if program[callee.value].isUnsafe && !isUnsafe then multiset{UnsafeCall(id)}
    else multiset{}
  }

  function DereferenceErrors(id: nat, isPointer: bool, isUnsafe: bool): multiset<Error> {
    if isPointer && !isUnsafe then multiset{PointerDereference(id)} else multiset{}
  }

  /** The first operand of a call is visited once more before it is reported as not mutable. */
  predicate ChecksOperand(v: Value) {
    v.Call? && v.callee.Some? && v.reassigns && v.args != []
  }

  function Errors(program: Program, v: Value, isUnsafe: bool): multiset<Error>
    decreases v, 1
  {
    match v
    case Leaf => multiset{}
    case Dereference(id, p, value) => Errors(program, value, isUnsafe) + DereferenceErrors(id, p, isUnsafe)
    case Call(id, callee, _, args) =>
      var operand := if ChecksOperand(v) then Errors(program, args[0], isUnsafe) + multiset{ImmutableAssignment(id)}
        else multiset{};
      CallErrors(program, id, callee, isUnsafe) + operand + ErrorsIn(program, args, isUnsafe)
    case FunctionRef(_) => multiset{}
    case ObjectInit(args) => ErrorsIn(program, args, isUnsafe)
    case Block(b, items) => ErrorsIn(program, items, isUnsafe || b)
    case Conditional(c, t, e) =>
      if e.Some? then Errors(program, c, isUnsafe) + Errors(program, t, isUnsafe) + Errors(program, e.value, isUnsafe)
      else Errors(program, c, isUnsafe) + Errors(program, t, isUnsafe)
    case WhileLoop(c, b, _) => Errors(program, c, isUnsafe) + Errors(program, b, isUnsafe)
    case Switch(s, cases, _, _) => Errors(program, s, isUnsafe) + ErrorsIn(program, cases, isUnsafe)
    case TryCatch(b, catches) => Errors(program, b, isUnsafe) + ErrorsIn(program, catches, isUnsafe)
    case IndexExtract(_) => multiset{}
    case Holder(e) => if e.Some? then Errors(program, e.value, isUnsafe) else multiset{}
  }

  function ErrorsIn(program: Program, values: seq<Value>, isUnsafe: bool): multiset<Error>
    decreases values, 0
  {
    if values == [] then multiset{}
    else Errors(program, values[0], isUnsafe) + ErrorsIn(program, values[1..], isUnsafe)
  }

  // Functions that a visit of a value goes on to

  function Callees(v: Value): set<FuncId>
    decreases v, 1
  {
    match v
    case Leaf => {}
    case Dereference(_, _, value) => Callees(value)
    case Call(_, callee, _, args) => (if callee.Some? then {callee.value} else {}) + CalleesIn(args)
    case FunctionRef(f) => {f}
    case ObjectInit(args) => CalleesIn(args)
    case Block(_, items) => CalleesIn(items)
    case Conditional(c, t, e) =>
      if e.Some? then Callees(c) + Callees(t) + Callees(e.value) else Callees(c) + Callees(t)
    case WhileLoop(c, b, _) => Callees(c) + Callees(b)
    case Switch(s, cases, _, _) => Callees(s) + CalleesIn(cases)
    case TryCatch(b, catches) => Callees(b) + CalleesIn(catches)
    case IndexExtract(_) => {}
    case Holder(e) => if e.Some? then Callees(e.value) else {}
  }

  function CalleesIn(values: seq<Value>): set<FuncId>
    decreases values, 0
  {
    if values == [] then {} else Callees(values[0]) + CalleesIn(values[1..])
  }

  // The parts of a call

  function Callee(v: Value): set<FuncId>
    requires v.Call?
  {
    if v.callee.Some? then {v.callee.value} else {}
  }

  function OperandErrors(program: Program, v: Value, isUnsafe: bool): multiset<Error>
    requires v.Call?
  {
    if ChecksOperand(v) then Errors(program, v.args[0], isUnsafe) + multiset{ImmutableAssignment(v.id)} else multiset{}
  }

  function OperandCallees(v: Value): set<FuncId>
    requires v.Call?
  {
    if ChecksOperand(v) then Callees(v.args[0]) else {}
  }

  lemma CallInParts(program: Program, v: Value, isUnsafe: bool)
    requires v.Call?
    ensures Errors(program, v, isUnsafe) == CallErrors(program, v.id, v.callee, isUnsafe)
      + OperandErrors(program, v, isUnsafe) + ErrorsIn(program, v.args, isUnsafe)
    ensures Callees(v) == Callee(v) + OperandCallees(v) + CalleesIn(v.args)
  {
  }

  /** Functions called from the body of a function, or used as values there. */
  function Calls(program: Program, f: FuncId): set<FuncId> {
    if f in program && program[f].body.Some? then Callees(program[f].body.value) else {}
  }

  /** Everything called is declared. */
  ghost predicate Closed(program: Program) {
    forall f | f in program :: Calls(program, f) <= program.Keys
  }

  predicate BodyIsUnsafe(f: Func) {
    f.isUnsafe && !f.notBody
  }

  /** Errors in the body of a function, whoever called it. */
  function BodyErrors(program: Program, f: FuncId): multiset<Error> {
    if f in program && program[f].body.Some? then Errors(program, program[f].body.value, BodyIsUnsafe(program[f]))
    else multiset{}
  }

  function AllBodyErrors(program: Program, fs: seq<FuncId>): multiset<Error> {
    if fs == [] then multiset{} else AllBodyErrors(program, fs[..|fs| - 1]) + BodyErrors(program, fs[|fs| - 1])
  }

  // Progress of the traversal

  /** Functions marked as checked, in the order they were entered; errors so far. */
  datatype Log = Log(checked: set<FuncId>, order: seq<FuncId>, errors: multiset<Error>)

  ghost predicate ClosedUnder(program: Program, s: set<FuncId>) {
    forall f | f in s :: Calls(program, f) <= s
  }

  predicate NoRepeats(fs: seq<FuncId>) {
    forall i, j :: 0 <= i < j < |fs| ==> fs[i] != fs[j]
  }

  /** The functions entered between two logs. */
  function Entered(before: Log, after: Log): seq<FuncId>
    requires |before.order| <= |after.order|
  {
    after.order[|before.order|..]
  }

  function SetOf(fs: seq<FuncId>): set<FuncId> {
    set f | f in fs
  }

  /** Functions not checked before are entered, each once. */
  ghost predicate EntersOnce(before: Log, after: Log) {
    && before.order <= after.order
    && NoRepeats(Entered(before, after))
    && (forall f | f in Entered(before, after) :: f !in before.checked)
    && after.checked == before.checked + SetOf(Entered(before, after))
  }

  /** The errors are those of the value and those of the bodies entered. */
  ghost predicate AddsErrors(program: Program, before: Log, after: Log, own: multiset<Error>) {
    |before.order| <= |after.order|
    && after.errors == before.errors + own + AllBodyErrors(program, Entered(before, after))
  }

  /** What is called is checked, also from the bodies entered. */
  ghost predicate ReachesCalls(program: Program, before: Log, after: Log, calls: set<FuncId>) {
    && calls <= after.checked
    && forall f | f in after.checked && f !in before.checked :: Calls(program, f) <= after.checked
  }

  /** Only what has to be reached is entered. */
  ghost predicate ReachesNoMore(program: Program, before: Log, after: Log, calls: set<FuncId>) {
    forall s | calls <= s && ClosedUnder(program, s) :: after.checked <= before.checked + s
  }

  /** A visit that reports `own` by itself and calls `calls`. */
  ghost predicate Step(program: Program, before: Log, after: Log, own: multiset<Error>, calls: set<FuncId>) {
    && EntersOnce(before, after)
    && AddsErrors(program, before, after, own)
    && ReachesCalls(program, before, after, calls)
    && ReachesNoMore(program, before, after, calls)
  }

  lemma {:induction false} AllBodyErrorsConcat(program: Program, a: seq<FuncId>, b: seq<FuncId>)
    ensures AllBodyErrors(program, a + b) == AllBodyErrors(program, a) + AllBodyErrors(program, b)
    decreases |b|
  {
    if b == [] {
      assert a + b == a;
    } else {
      assert (a + b)[..|a + b| - 1] == a + b[..|b| - 1];
      AllBodyErrorsConcat(program, a, b[..|b| - 1]);
    }
  }

  lemma NoStep(program: Program, log: Log)
    ensures Step(program, log, log, multiset{}, {})
  {
  }

  /** An error reported on the way. */
  lemma Report(program: Program, log: Log, error: multiset<Error>)
    ensures Step(program, log, log.(errors := log.errors + error), error, {})
  {
  }

  lemma EntersThen(a: Log, b: Log, c: Log)
    requires EntersOnce(a, b) && EntersOnce(b, c)
    ensures EntersOnce(a, c) && Entered(a, c) == Entered(a, b) + Entered(b, c)
  {
    var first, second := Entered(a, b), Entered(b, c);
    assert Entered(a, c) == first + second;
    assert forall f :: f in first + second <==> f in first || f in second;
    assert forall f :: f in first ==> f in b.checked;
    NoRepeatsConcat(first, second);
    assert SetOf(first + second) == SetOf(first) + SetOf(second);
  }

  lemma NoRepeatsConcat(a: seq<FuncId>, b: seq<FuncId>)
    requires NoRepeats(a) && NoRepeats(b) && forall f | f in a :: f !in b
    ensures NoRepeats(a + b)
  {
    forall i, j | 0 <= i < j < |a + b|
      ensures (a + b)[i] != (a + b)[j]
    {
      if i < |a| <= j {
        assert a[i] in a && b[j - |a|] in b;
      }
    }
  }

  lemma ReachesThen(program: Program, a: Log, b: Log, c: Log, calls: set<FuncId>, calls': set<FuncId>)
    requires a.checked <= b.checked <= c.checked
    requires ReachesCalls(program, a, b, calls) && ReachesCalls(program, b, c, calls')
    requires ReachesNoMore(program, a, b, calls) && ReachesNoMore(program, b, c, calls')
    ensures ReachesCalls(program, a, c, calls + calls') && ReachesNoMore(program, a, c, calls + calls')
  {
    forall s | calls + calls' <= s && ClosedUnder(program, s)
      ensures c.checked <= a.checked + s
    {
      assert calls <= s && calls' <= s;
      assert b.checked <= a.checked + s && c.checked <= b.checked + s;
    }
    forall f | f in c.checked && f !in a.checked
      ensures Calls(program, f) <= c.checked
    {
      assert f in b.checked ==> Calls(program, f) <= b.checked;
    }
  }

  lemma StepThen(program: Program, a: Log, b: Log, c: Log, own: multiset<Error>, own': multiset<Error>,
      calls: set<FuncId>, calls': set<FuncId>)
    requires Step(program, a, b, own, calls) && Step(program, b, c, own', calls')
    ensures Step(program, a, c, own + own', calls + calls')
  {
    EntersThen(a, b, c);
    AllBodyErrorsConcat(program, Entered(a, b), Entered(b, c));
    ReachesThen(program, a, b, c, calls, calls');
  }

  lemma OneEntered(program: Program, a: Log, b: Log, f: FuncId)
    requires f !in a.checked && b == Log(a.checked + {f}, a.order + [f], a.errors)
    ensures EntersOnce(a, b) && Entered(a, b) == [f] && AllBodyErrors(program, [f]) == BodyErrors(program, f)
  {
    assert Entered(a, b) == [f];
    assert [f][..0] == [];
    assert SetOf([f]) == {f};
  }

  lemma IntoReaches(program: Program, a: Log, b: Log, c: Log, f: FuncId)
    requires f !in a.checked && b.checked == a.checked + {f} && b.checked <= c.checked
    requires ReachesCalls(program, b, c, Calls(program, f)) && ReachesNoMore(program, b, c, Calls(program, f))
    ensures ReachesCalls(program, a, c, {f}) && ReachesNoMore(program, a, c, {f})
  {
    forall s | {f} <= s && ClosedUnder(program, s)
      ensures c.checked <= a.checked + s
    {
      assert f in s && Calls(program, f) <= s;
      assert c.checked <= b.checked + s;
    }
  }

  /** The visit of an unchecked function is the visit of its body. */
  lemma StepInto(program: Program, a: Log, b: Log, c: Log, f: FuncId)
    requires f !in a.checked && b == Log(a.checked + {f}, a.order + [f], a.errors)
    requires Step(program, b, c, BodyErrors(program, f), Calls(program, f))
    ensures Step(program, a, c, multiset{}, {f})
  {
    OneEntered(program, a, b, f);
    EntersThen(a, b, c);
    AllBodyErrorsConcat(program, [f], Entered(b, c));
    IntoReaches(program, a, b, c, f);
  }

  // The dummy `seal` keeps a step folded in the visits below.

  ghost predicate StepAt(seal: int, program: Program, before: Log, after: Log, own: multiset<Error>,
      calls: set<FuncId>) {
    Step(program, before, after, own, calls)
  }

  ghost predicate Goes(program: Program, before: Log, after: Log, own: multiset<Error>, calls: set<FuncId>) {
    forall seal :: StepAt(seal, program, before, after, own, calls)
  }

  lemma GoesThen(program: Program, a: Log, b: Log, c: Log, own: multiset<Error>, own': multiset<Error>,
      calls: set<FuncId>, calls': set<FuncId>, sum: multiset<Error>, union: set<FuncId>)
    requires Goes(program, a, b, own, calls) && Goes(program, b, c, own', calls')
    requires sum == own + own' && union == calls + calls'
    ensures Goes(program, a, c, sum, union)
  {
    assert StepAt(0, program, a, b, own, calls) && StepAt(0, program, b, c, own', calls');
    StepThen(program, a, b, c, own, own', calls, calls');
  }

  lemma GoesNowhere(program: Program, log: Log)
    ensures Goes(program, log, log, multiset{}, {})
  {
    NoStep(program, log);
  }

  lemma GoesReporting(program: Program, log: Log, after: Log, error: multiset<Error>)
    requires after == log.(errors := log.errors + error)
    ensures Goes(program, log, after, error, {})
  {
    Report(program, log, error);
  }

  lemma GoesInto(program: Program, a: Log, b: Log, c: Log, f: FuncId)
    requires f !in a.checked && b == Log(a.checked + {f}, a.order + [f], a.errors)
    requires Goes(program, b, c, BodyErrors(program, f), Calls(program, f))
    ensures Goes(program, a, c, multiset{}, {f})
  {
    assert StepAt(0, program, b, c, BodyErrors(program, f), Calls(program, f));
    StepInto(program, a, b, c, f);
  }

  lemma GoesNotAgain(program: Program, log: Log, f: FuncId)
    requires f in log.checked
    ensures Goes(program, log, log, multiset{}, {f})
  {
    assert Step(program, log, log, multiset{}, {f});
  }

  lemma FewerLeft(program: Program, before: set<FuncId>, after: set<FuncId>)
    requires before <= after
    ensures |program.Keys - after| <= |program.Keys - before|
    ensures forall f | f in program && f in after && f !in before :: |program.Keys - after| < |program.Keys - before|
  {
    Subset(program.Keys - after, program.Keys - before);
    forall f | f in program && f in after && f !in before
      ensures |program.Keys - after| < |program.Keys - before|
    {
      Subset(program.Keys - after, program.Keys - before - {f});
    }
  }

  lemma {:induction false} Subset(a: set<FuncId>, b: set<FuncId>)
    requires a <= b
    ensures |a| <= |b|
    decreases a
  {
    if a != {} {
      var x :| x in a;
      Subset(a - {x}, b - {x});
    }
  }

  class TypeChecker {
    const program: Program
    var checked: set<FuncId>
    var errors: seq<Error>
    var unsafeContext: bool
    var currentFunction: Option<FuncId>
    ghost var order: seq<FuncId>

    constructor (program: Program)
      ensures this.program == program && checked == {} && errors == [] && !unsafeContext && currentFunction == None
      ensures order == []
    {
      this.program := program;
      checked, errors, unsafeContext, currentFunction, order := {}, [], false, None, [];
    }

    ghost function State(): Log
      reads this
    {
      Log(checked, order, multiset(errors))
    }

    ghost function Left(): nat
      reads this
    {
      |program.Keys - checked|
    }

    method Report(error: Error)
      modifies this`errors
      ensures errors == old(errors) + [error]
      ensures Goes(program, old(State()), State(), multiset{error}, {})
    {
      errors := errors + [error];
      assert multiset(errors) == old(multiset(errors)) + multiset{error};
      GoesReporting(program, old(State()), State(), multiset{error});
    }

    method VisitFunc(f: FuncId)
      requires Closed(program) && f in program
      modifies this
      ensures Goes(program, old(State()), State(), multiset{}, {f})
      ensures old(checked) <= checked && unsafeContext == old(unsafeContext) && currentFunction == old(currentFunction)
      decreases Left(), 0
    {
      if f in checked {
        GoesNotAgain(program, State(), f);
        return;
      }
      checked := checked + {f};
      order := order + [f];
      FewerLeft(program, old(checked), checked);
      var backup := currentFunction;
      currentFunction := Some(f);
      var unsafeBk := unsafeContext;
      unsafeContext := program[f].isUnsafe && !program[f].notBody;
      ghost var entered := State();
      GoesNowhere(program, entered);
      if program[f].body.Some? {
        Visit(program[f].body.value);
      }
      GoesInto(program, old(State()), entered, State(), f);
      unsafeContext := unsafeBk;
      currentFunction := backup;
    }

    method VisitAll(values: seq<Value>)
      requires Closed(program) && CalleesIn(values) <= program.Keys
      modifies this
      ensures Goes(program, old(State()), State(), ErrorsIn(program, values, unsafeContext), CalleesIn(values))
      ensures old(checked) <= checked && unsafeContext == old(unsafeContext) && currentFunction == old(currentFunction)
      decreases Left(), 1, values, 0
    {
      if values == [] {
        GoesNowhere(program, State());
        return;
      }
      Visit(values[0]);
      ghost var middle := State();
      FewerLeft(program, old(checked), checked);
      VisitAll(values[1..]);
      GoesThen(program, old(State()), middle, State(), Errors(program, values[0], unsafeContext),
               ErrorsIn(program, values[1..], unsafeContext), Callees(values[0]), CalleesIn(values[1..]),
               ErrorsIn(program, values, unsafeContext), CalleesIn(values));
    }

    method VisitDereference(v: Value)
      requires v.Dereference? && Closed(program) && Callees(v) <= program.Keys
      modifies this
      ensures Goes(program, old(State()), State(), Errors(program, v, unsafeContext), Callees(v))
      ensures old(checked) <= checked && unsafeContext == old(unsafeContext) && currentFunction == old(currentFunction)
      decreases Left(), 1, v, 1
    {
      Visit(v.value);
      ghost var middle := State();
      GoesNowhere(program, middle);
      if v.isPointer {
        if !unsafeContext {
          Report(PointerDereference(v.id));
        }
      }
      GoesThen(program, old(State()), middle, State(), Errors(program, v.value, unsafeContext),
               DereferenceErrors(v.id, v.isPointer, unsafeContext), Callees(v.value), {},
               Errors(program, v, unsafeContext), Callees(v));
    }

    /** The callee of a call, if it is a function. */
    method VisitCallee(v: Value)
      requires v.Call? && Closed(program) && Callees(v) <= program.Keys
      modifies this
      ensures Goes(program, old(State()), State(), CallErrors(program, v.id, v.callee, unsafeContext), Callee(v))
      ensures old(checked) <= checked && unsafeContext == old(unsafeContext) && currentFunction == old(currentFunction)
      decreases Left(), 1, v, 0
    {
      ghost var own, start := CallErrors(program, v.id, v.callee, unsafeContext), State();
      GoesNowhere(program, start);
      if v.callee.Some? {
        var fn := program[v.callee.value];
        if !fn.implemented {
          Report(NotImplemented(v.id));
        } else if fn.isUnsafe && !unsafeContext {
          Report(UnsafeCall(v.id));
        }
        ghost var reported := State();
        VisitFunc(v.callee.value);
        GoesThen(program, start, reported, State(), own, multiset{}, {}, {v.callee.value}, own, {v.callee.value});
      }
    }

    /** The part of `checkMutability` that goes on to a value. */
    method CheckMutability(v: Value)
      requires v.Call? && Closed(program) && Callees(v) <= program.Keys
      modifies this
      ensures Goes(program, old(State()), State(), OperandErrors(program, v, unsafeContext), OperandCallees(v))
      ensures old(checked) <= checked && unsafeContext == old(unsafeContext) && currentFunction == old(currentFunction)
      decreases Left(), 1, v, 0
    {
      GoesNowhere(program, State());
      if v.callee.Some? && v.reassigns && v.args != [] {
        Visit(v.args[0]);
        ghost var middle := State();
        Report(ImmutableAssignment(v.id));
        GoesThen(program, old(State()), middle, State(), Errors(program, v.args[0], unsafeContext),
                 multiset{ImmutableAssignment(v.id)}, Callees(v.args[0]), {}, OperandErrors(program, v, unsafeContext),
                 OperandCallees(v));
      }
    }

    method VisitCall(v: Value)
      requires v.Call? && Closed(program) && Callees(v) <= program.Keys
      modifies this
      ensures Goes(program, old(State()), State(), Errors(program, v, unsafeContext), Callees(v))
      ensures old(checked) <= checked && unsafeContext == old(unsafeContext) && currentFunction == old(currentFunction)
      decreases Left(), 1, v, 1
    {
      ghost var own := CallErrors(program, v.id, v.callee, unsafeContext);
      ghost var operand := OperandErrors(program, v, unsafeContext);
      CallInParts(program, v, unsafeContext);
      VisitCallee(v);
      ghost var called := State();
      FewerLeft(program, old(checked), checked);
      CheckMutability(v);
      ghost var middle := State();
      FewerLeft(program, old(checked), checked);
      GoesThen(program, old(State()), called, middle, own, operand, Callee(v), OperandCallees(v), own + operand,
               Callee(v) + OperandCallees(v));
      VisitAll(v.args);
      GoesThen(program, old(State()), middle, State(), own + operand, ErrorsIn(program, v.args, unsafeContext),
               Callee(v) + OperandCallees(v), CalleesIn(v.args), Errors(program, v, unsafeContext), Callees(v));
    }

    method VisitBlock(v: Value)
      requires v.Block? && Closed(program) && Callees(v) <= program.Keys
      modifies this
      ensures Goes(program, old(State()), State(), Errors(program, v, unsafeContext), Callees(v))
      ensures old(checked) <= checked && unsafeContext == old(unsafeContext) && currentFunction == old(currentFunction)
      decreases Left(), 1, v, 1
    {
      var bk := unsafeContext;
      if v.isUnsafe {
        unsafeContext := true;
      }
      VisitAll(v.items);
      if v.isUnsafe {
        unsafeContext := bk;
      }
    }

    method VisitConditional(v: Value)
      requires v.Conditional? && Closed(program) && Callees(v) <= program.Keys
      modifies this
      ensures Goes(program, old(State()), State(), Errors(program, v, unsafeContext), Callees(v))
      ensures old(checked) <= checked && unsafeContext == old(unsafeContext) && currentFunction == old(currentFunction)
      decreases Left(), 1, v, 1
    {
      VisitPair(v, v.condition, v.block);
      if v.otherwise.Some? {
        ghost var middle := State();
        FewerLeft(program, old(checked), checked);
        Visit(v.otherwise.value);
        GoesThen(program, old(State()), middle, State(),
                 Errors(program, v.condition, unsafeContext) + Errors(program, v.block, unsafeContext),
                 Errors(program, v.otherwise.value, unsafeContext), Callees(v.condition) + Callees(v.block),
                 Callees(v.otherwise.value), Errors(program, v, unsafeContext), Callees(v));
      }
    }

    /** Two parts of `v` one after the other. */
    method VisitPair(ghost v: Value, first: Value, second: Value)
      requires first < v && second < v && Closed(program) && Callees(first) + Callees(second) <= program.Keys
      modifies this
      ensures Goes(program, old(State()), State(),
                   Errors(program, first, unsafeContext) + Errors(program, second, unsafeContext),
                   Callees(first) + Callees(second))
      ensures old(checked) <= checked && unsafeContext == old(unsafeContext) && currentFunction == old(currentFunction)
      decreases Left(), 1, v, 0
    {
      Visit(first);
      ghost var middle := State();
      FewerLeft(program, old(checked), checked);
      Visit(second);
      GoesThen(program, old(State()), middle, State(), Errors(program, first, unsafeContext),
               Errors(program, second, unsafeContext), Callees(first), Callees(second),
               Errors(program, first, unsafeContext) + Errors(program, second, unsafeContext),
               Callees(first) + Callees(second));
    }

    method VisitWhileLoop(v: Value)
      requires v.WhileLoop? && Closed(program) && Callees(v) <= program.Keys
      modifies this
      ensures Goes(program, old(State()), State(), Errors(program, v, unsafeContext), Callees(v))
      ensures old(checked) <= checked && unsafeContext == old(unsafeContext) && currentFunction == old(currentFunction)
      decreases Left(), 1, v, 1
    {
      VisitPair(v, v.condition, v.body);
    }

    method VisitSwitch(v: Value)
      requires v.Switch? && Closed(program) && Callees(v) <= program.Keys
      modifies this
      ensures Goes(program, old(State()), State(), Errors(program, v, unsafeContext), Callees(v))
      ensures old(checked) <= checked && unsafeContext == old(unsafeContext) && currentFunction == old(currentFunction)
      decreases Left(), 1, v, 1
    {
      Visit(v.scrutinee);
      ghost var middle := State();
      FewerLeft(program, old(checked), checked);
      VisitAll(v.cases);
      GoesThen(program, old(State()), middle, State(), Errors(program, v.scrutinee, unsafeContext),
               ErrorsIn(program, v.cases, unsafeContext), Callees(v.scrutinee), CalleesIn(v.cases),
               Errors(program, v, unsafeContext), Callees(v));
    }

    method VisitTryCatch(v: Value)
      requires v.TryCatch? && Closed(program) && Callees(v) <= program.Keys
      modifies this
      ensures Goes(program, old(State()), State(), Errors(program, v, unsafeContext), Callees(v))
      ensures old(checked) <= checked && unsafeContext == old(unsafeContext) && currentFunction == old(currentFunction)
      decreases Left(), 1, v, 1
    {
      Visit(v.body);
      ghost var middle := State();
      FewerLeft(program, old(checked), checked);
      VisitAll(v.catches);
      GoesThen(program, old(State()), middle, State(), Errors(program, v.body, unsafeContext),
               ErrorsIn(program, v.catches, unsafeContext), Callees(v.body), CalleesIn(v.catches),
               Errors(program, v, unsafeContext), Callees(v));
    }

    method Visit(v: Value)
      requires Closed(program) && Callees(v) <= program.Keys
      modifies this
      ensures Goes(program, old(State()), State(), Errors(program, v, unsafeContext), Callees(v))
      ensures old(checked) <= checked && unsafeContext == old(unsafeContext) && currentFunction == old(currentFunction)
      decreases Left(), 1, v, 2
    {
      match v
      case Leaf => GoesNowhere(program, State());
      case IndexExtract(_) => GoesNowhere(program, State());
      case Dereference(_, _, _) => VisitDereference(v);
      case Call(_, _, _, _) => VisitCall(v);
      case FunctionRef(f) => VisitFunc(f);
      case ObjectInit(args) => VisitAll(args);
      case Block(_, _) => VisitBlock(v);
      case Conditional(_, _, _) => VisitConditional(v);
      case WhileLoop(_, _, _) => VisitWhileLoop(v);
      case Switch(_, _, _, _) => VisitSwitch(v);
      case TryCatch(_, _) => VisitTryCatch(v);
      case Holder(e) =>
        GoesNowhere(program, State());
        if e.Some? {
          Visit(e.value);
        }
    }

    /** `codegen` after the types are fixed: variables in order, functions from the end to the front. */
    method Codegen(variables: seq<Value>, functions: seq<FuncId>) returns (ok: bool)
      requires Closed(program) && CalleesIn(variables) <= program.Keys && SetOf(functions) <= program.Keys
      modifies this
      ensures Goes(program, old(State()), State(), ErrorsIn(program, variables, unsafeContext),
                   CalleesIn(variables) + SetOf(functions))
      ensures unsafeContext == old(unsafeContext) && currentFunction == old(currentFunction)
      ensures ok <==> errors == []
    {
      VisitAll(variables);
      var i := |functions|;
      assert functions[i..] == [];
      GoesTo(program, old(State()), State(), ErrorsIn(program, variables, unsafeContext), CalleesIn(variables),
             CalleesIn(variables) + SetOf(functions[i..]));
      while i > 0
        invariant i <= |functions|
        invariant unsafeContext == old(unsafeContext) && currentFunction == old(currentFunction)
        invariant Goes(program, old(State()), State(), ErrorsIn(program, variables, unsafeContext),
                       CalleesIn(variables) + SetOf(functions[i..]))
      {
        i := i - 1;
        assert functions[i] in SetOf(functions);
        ghost var middle := State();
        VisitFunc(functions[i]);
        assert functions[i..] == [functions[i]] + functions[i + 1..];
        GoesThen(program, old(State()), middle, State(), ErrorsIn(program, variables, unsafeContext), multiset{},
                 CalleesIn(variables) + SetOf(functions[i + 1..]), {functions[i]},
                 ErrorsIn(program, variables, unsafeContext), CalleesIn(variables) + SetOf(functions[i..]));
      }
      assert functions[0..] == functions;
      ok := |errors| == 0;
    }
  }

  lemma GoesTo(program: Program, a: Log, b: Log, own: multiset<Error>, calls: set<FuncId>, calls': set<FuncId>)
    requires Goes(program, a, b, own, calls) && calls == calls'
    ensures Goes(program, a, b, own, calls')
  {
  }
}
