/**
 Conditions kept in a byte. `createCondBr` cuts such a condition to its lowest bit, so a branch goes
 wrong exactly for the even values other than zero. A condition that is a number is cast to `bool`
 before, by cutting it to a byte, so the rule is the same for numbers of any width.
 */
module Conditions {
  import opened Wrappers
  import opened Ir
  import opened BlockGraph
  import opened Lowering
  import opened LoweringTheorem

  /** What the condition is about is an even number other than zero, and it is tested as a byte. */
  predicate Misjudged(w: World, cond: Expr, s: Store) {
    var v := EvalExpr(w, Asked(cond), s).0;
    cond.WidthOf() == I8 && v != 0 && v % 2 == 0
  }

  lemma LowBitOfByte(v: int)
    ensures Norm(I8, v) % 2 == v % 2
  {
    var q, r := v / 256, v % 256;
    LowBit(r / 2, r % 2);
    LowBit(128 * q + r / 2, r % 2);
  }

  lemma LowBit(x: int, bit: int)
    requires bit == 0 || bit == 1
    ensures (2 * x + bit) % 2 == bit
  {
  }

  /** The lowest bit decides as "not zero" does, except for exactly these conditions. */
  lemma MisjudgedIff(w: World, cond: Expr, s: Store)
    ensures Misjudged(w, cond, s) <==> Test(w, false, cond, s) != Test(w, true, cond, s)
  {
    LowBitOfByte(EvalExpr(w, Asked(cond), s).0);
  }

  // One run

  /** No condition evaluated on the run from `s`, as far as the fuel lasts, is misjudged. */
  predicate Clean(w: World, stmt: Stmt, s: Store, fuel: nat)
    decreases fuel, stmt, 1
  {
    match stmt
    case Block(stmts) => CleanSeq(w, stmts, s, fuel)
    case If(cond, thn, els) =>
      var s1 := EvalExpr(w, cond, s).1;
      && !Misjudged(w, cond, s)
      && if Test(w, true, cond, s) then Clean(w, thn, s1, fuel) else els.Some? ==> Clean(w, els.value, s1, fuel)
    case Loop(cond, body, doWhile, step) =>
      fuel > 0 ==>
        if doWhile then
          && Clean(w, body, s, fuel)
          && var r := Exec(w, true, body, s, fuel);
             GoesOn(r) ==>
               && !Misjudged(w, cond, r.store)
               && (Test(w, true, cond, r.store) ==> Clean(w, stmt, EvalExpr(w, cond, r.store).1, fuel - 1))
        else
          var s1 := EvalExpr(w, cond, s).1;
          && !Misjudged(w, cond, s)
          && (Test(w, true, cond, s) ==>
                && Clean(w, body, s1, fuel)
                && var r := Exec(w, true, body, s1, fuel);
                   GoesOn(r) ==> Clean(w, stmt, EvalOptional(w, step, r.store).1, fuel - 1))
    case _ => true
  }

  predicate CleanSeq(w: World, stmts: seq<Stmt>, s: Store, fuel: nat)
    decreases fuel, stmts, 0
  {
    stmts != [] ==>
      && Clean(w, stmts[0], s, fuel)
      && var r := Exec(w, true, stmts[0], s, fuel);
         EndsNormally(r) ==> CleanSeq(w, stmts[1..], r.store, fuel)
  }

  /** However long it runs. */
  ghost predicate CleanRun(w: World, body: Stmt, s: Store) {
    forall fuel: nat :: Clean(w, body, s, fuel)
  }

  lemma {:induction false} CleanAgrees(w: World, stmt: Stmt, s: Store, fuel: nat)
    requires Clean(w, stmt, s, fuel)
    ensures Exec(w, false, stmt, s, fuel) == Exec(w, true, stmt, s, fuel)
    decreases fuel, stmt, 1
  {
    match stmt
    case Block(stmts) => CleanSeqAgrees(w, stmts, s, fuel);
    case If(cond, thn, els) =>
      MisjudgedIff(w, cond, s);
      var s1 := EvalExpr(w, cond, s).1;
      if Test(w, true, cond, s) {
        CleanAgrees(w, thn, s1, fuel);
      } else if els.Some? {
        CleanAgrees(w, els.value, s1, fuel);
      }
    case Loop(_, _, doWhile, _) =>
      if fuel > 0 && doWhile {
        CleanDoWhileAgrees(w, stmt, s, fuel);
      } else if fuel > 0 {
        CleanWhileAgrees(w, stmt, s, fuel);
      }
    case _ =>
  }

  lemma {:induction false} CleanDoWhileAgrees(w: World, stmt: Stmt, s: Store, fuel: nat)
    requires stmt.Loop? && stmt.doWhile && fuel > 0 && Clean(w, stmt, s, fuel)
    ensures Exec(w, false, stmt, s, fuel) == Exec(w, true, stmt, s, fuel)
    decreases fuel, stmt, 0
  {
    CleanAgrees(w, stmt.body, s, fuel);
    var r := Exec(w, true, stmt.body, s, fuel);
    if GoesOn(r) {
      MisjudgedIff(w, stmt.cond, r.store);
      if Test(w, true, stmt.cond, r.store) {
        CleanAgrees(w, stmt, EvalExpr(w, stmt.cond, r.store).1, fuel - 1);
      }
    }
  }

  lemma {:induction false} CleanWhileAgrees(w: World, stmt: Stmt, s: Store, fuel: nat)
    requires stmt.Loop? && !stmt.doWhile && fuel > 0 && Clean(w, stmt, s, fuel)
    ensures Exec(w, false, stmt, s, fuel) == Exec(w, true, stmt, s, fuel)
    decreases fuel, stmt, 0
  {
    MisjudgedIff(w, stmt.cond, s);
    var s1 := EvalExpr(w, stmt.cond, s).1;
    if Test(w, true, stmt.cond, s) {
      CleanAgrees(w, stmt.body, s1, fuel);
      var r := Exec(w, true, stmt.body, s1, fuel);
      if GoesOn(r) {
        CleanAgrees(w, stmt, EvalOptional(w, stmt.step, r.store).1, fuel - 1);
      }
    }
  }

  lemma {:induction false} CleanSeqAgrees(w: World, stmts: seq<Stmt>, s: Store, fuel: nat)
    requires CleanSeq(w, stmts, s, fuel)
    ensures ExecSeq(w, false, stmts, s, fuel) == ExecSeq(w, true, stmts, s, fuel)
    decreases fuel, stmts, 0
  {
    if stmts != [] {
      CleanAgrees(w, stmts[0], s, fuel);
      var r := Exec(w, true, stmts[0], s, fuel);
      if EndsNormally(r) {
        CleanSeqAgrees(w, stmts[1..], r.store, fuel);
      }
    }
  }

  /** On a run without such a condition the block graph computes what the program means, "not zero"
      being true. */
  lemma CleanRunsPreserved(w: World, kind: FuncKind, body: Stmt, s: Store, v: Option<int>, s': Store)
    requires Scoped(body, false) && CleanRun(w, body, s)
    ensures Halts(w, kind, body, s, v, s') <==> Runs(w, true, kind, body, s, v, s')
  {
    LoweringPreservesMeaning(w, kind, body, s, v, s');
    forall fuel: nat
      ensures ExecFunction(w, true, kind, body, s, fuel) == ExecFunction(w, false, kind, body, s, fuel)
    {
      CleanAgrees(w, body, s, fuel);
    }
  }

  // Boolean variables

  /** The names of the variables and of the functions that are declared as `bool`. */
  datatype Declared = Declared(flags: set<string>, tests: set<string>)

  predicate IsBool(v: int) {
    v == 0 || v == 1
  }

  predicate FlagsHold(d: Declared, s: Store) {
    forall x | x in d.flags :: IsBool(ReadVar(s, x))
  }

  predicate CallHolds(d: Declared, w: World, callee: string, args: seq<int>, s: Store) {
    FlagsHold(d, s) ==>
      && FlagsHold(d, w.call(callee, args, s).1)
      && (callee in d.tests ==> IsBool(w.call(callee, args, s).0))
  }

  /** Calls keep the boolean variables, and functions that return `bool` return one. */
  ghost predicate CallsHold(d: Declared, w: World) {
    forall callee, args, s :: CallHolds(d, w, callee, args, s)
  }

  /** Expressions of type `bool`. */
  predicate BoolTyped(d: Declared, e: Expr) {
    match e
    case Const(v, width) => IsBool(Norm(width, v))
    case Load(name, width) => width == I1 || name in d.flags
    case Call(callee, width, _) => width == I1 || callee in d.tests
    case Arith(_, width, _, _) => width == I1
    case CastToBool(x) => BoolTyped(d, x)
    case _ => true
  }

  /** A byte is a condition only if it is a `bool`, and only a `bool` is assigned to a boolean variable. */
  predicate WellTyped(d: Declared, stmt: Stmt)
    decreases stmt
  {
    match stmt
    case Block(stmts) => forall x | x in stmts :: WellTyped(d, x)
    case Assign(name, e) => name in d.flags ==> BoolTyped(d, e)
    case If(cond, thn, els) => Testable(d, cond) && WellTyped(d, thn) && (els.Some? ==> WellTyped(d, els.value))
    case Loop(cond, body, _, _) => Testable(d, cond) && WellTyped(d, body)
    case _ => true
  }

  predicate Testable(d: Declared, cond: Expr) {
    cond.WidthOf() == I8 ==> BoolTyped(d, cond)
  }

  lemma {:induction false} BoolValue(d: Declared, w: World, e: Expr, s: Store)
    requires CallsHold(d, w) && FlagsHold(d, s)
    ensures FlagsHold(d, EvalExpr(w, e, s).1)
    ensures BoolTyped(d, e) ==> IsBool(EvalExpr(w, e, s).0)
    decreases e, 1
  {
    match e
    case Const(_, _) =>
    case Load(_, _) =>
    case Call(callee, _, args) =>
      BoolArgs(d, w, args, s);
      var (vs, s1) := EvalArgs(w, args, s);
      assert CallHolds(d, w, callee, vs, s1);
    case Arith(_, _, l, r) =>
      if l.Load? {
        BoolValue(d, w, r, s);
      } else {
        BoolValue(d, w, l, s);
        BoolValue(d, w, r, EvalExpr(w, l, s).1);
      }
    case And(l, r) =>
      BoolValue(d, w, l, s);
      BoolValue(d, w, r, EvalExpr(w, l, s).1);
    case Or(l, r) =>
      BoolValue(d, w, l, s);
      BoolValue(d, w, r, EvalExpr(w, l, s).1);
    case Not(x) => BoolValue(d, w, x, s);
    case CastToBool(x) => BoolValue(d, w, x, s);
  }

  lemma {:induction false} BoolArgs(d: Declared, w: World, es: seq<Expr>, s: Store)
    requires CallsHold(d, w) && FlagsHold(d, s)
    ensures FlagsHold(d, EvalArgs(w, es, s).1)
    decreases es, 0
  {
    if es != [] {
      BoolValue(d, w, es[0], s);
      BoolArgs(d, w, es[1..], EvalExpr(w, es[0], s).1);
    }
  }

  lemma TestIsClean(d: Declared, w: World, cond: Expr, s: Store)
    requires CallsHold(d, w) && FlagsHold(d, s) && Testable(d, cond)
    ensures FlagsHold(d, EvalExpr(w, cond, s).1) && !Misjudged(w, cond, s)
  {
    BoolValue(d, w, cond, s);
    BoolValue(d, w, Asked(cond), s);
  }

  lemma OptionalHolds(d: Declared, w: World, e: Option<Expr>, s: Store)
    requires CallsHold(d, w) && FlagsHold(d, s)
    ensures FlagsHold(d, EvalOptional(w, e, s).1)
  {
    if e.Some? {
      BoolValue(d, w, e.value, s);
    }
  }

  /** A run that keeps the boolean variables boolean. */
  predicate Holds(d: Declared, r: Run) {
    r.Done? ==> FlagsHold(d, r.store)
  }

  lemma {:induction false} WellTypedClean(d: Declared, w: World, stmt: Stmt, s: Store, fuel: nat)
    requires CallsHold(d, w) && FlagsHold(d, s) && WellTyped(d, stmt)
    ensures Clean(w, stmt, s, fuel) && Holds(d, Exec(w, true, stmt, s, fuel))
    decreases fuel, stmt, 1
  {
    match stmt
    case Block(stmts) => WellTypedSeqClean(d, w, stmts, s, fuel);
    case Eval(e) => BoolValue(d, w, e, s);
    case Assign(_, e) => BoolValue(d, w, e, s);
    case If(cond, thn, els) =>
      TestIsClean(d, w, cond, s);
      var s1 := EvalExpr(w, cond, s).1;
      if Test(w, true, cond, s) {
        WellTypedClean(d, w, thn, s1, fuel);
      } else if els.Some? {
        WellTypedClean(d, w, els.value, s1, fuel);
      }
    case Loop(_, _, doWhile, _) =>
      if fuel > 0 && doWhile {
        DoWhileClean(d, w, stmt, s, fuel);
      } else if fuel > 0 {
        WhileClean(d, w, stmt, s, fuel);
      }
    case Break =>
    case Continue =>
    case Return(e) => OptionalHolds(d, w, e, s);
  }

  lemma {:induction false} DoWhileClean(d: Declared, w: World, stmt: Stmt, s: Store, fuel: nat)
    requires CallsHold(d, w) && FlagsHold(d, s) && WellTyped(d, stmt) && stmt.Loop? && stmt.doWhile && fuel > 0
    ensures Clean(w, stmt, s, fuel) && Holds(d, Exec(w, true, stmt, s, fuel))
    decreases fuel, stmt, 0
  {
    WellTypedClean(d, w, stmt.body, s, fuel);
    var r := Exec(w, true, stmt.body, s, fuel);
    if GoesOn(r) {
      TestIsClean(d, w, stmt.cond, r.store);
      WellTypedClean(d, w, stmt, EvalExpr(w, stmt.cond, r.store).1, fuel - 1);
    }
  }

  lemma {:induction false} WhileClean(d: Declared, w: World, stmt: Stmt, s: Store, fuel: nat)
    requires CallsHold(d, w) && FlagsHold(d, s) && WellTyped(d, stmt) && stmt.Loop? && !stmt.doWhile && fuel > 0
    ensures Clean(w, stmt, s, fuel) && Holds(d, Exec(w, true, stmt, s, fuel))
    decreases fuel, stmt, 0
  {
    TestIsClean(d, w, stmt.cond, s);
    var s1 := EvalExpr(w, stmt.cond, s).1;
    WellTypedClean(d, w, stmt.body, s1, fuel);
    var r := Exec(w, true, stmt.body, s1, fuel);
    if GoesOn(r) {
      OptionalHolds(d, w, stmt.step, r.store);
      WellTypedClean(d, w, stmt, EvalOptional(w, stmt.step, r.store).1, fuel - 1);
    }
  }

  lemma {:induction false} WellTypedSeqClean(d: Declared, w: World, stmts: seq<Stmt>, s: Store, fuel: nat)
    requires CallsHold(d, w) && FlagsHold(d, s) && forall x | x in stmts :: WellTyped(d, x)
    ensures CleanSeq(w, stmts, s, fuel) && Holds(d, ExecSeq(w, true, stmts, s, fuel))
    decreases fuel, stmts, 0
  {
    if stmts != [] {
      WellTypedClean(d, w, stmts[0], s, fuel);
      var r := Exec(w, true, stmts[0], s, fuel);
      if EndsNormally(r) {
        WellTypedSeqClean(d, w, stmts[1..], r.store, fuel);
      }
    }
  }

  /**
   If the boolean variables are 0 or 1 at the start, and calls and assignments keep them so, the block
   graph computes what the program means, boolean variables as conditions included.
   */
  lemma BooleanProgramsPreserved(d: Declared, w: World, kind: FuncKind, body: Stmt, s: Store, v: Option<int>, s': Store)
    requires Scoped(body, false) && WellTyped(d, body) && CallsHold(d, w) && FlagsHold(d, s)
    ensures Halts(w, kind, body, s, v, s') <==> Runs(w, true, kind, body, s, v, s')
  {
    forall fuel: nat
      ensures Clean(w, body, s, fuel)
    {
      WellTypedClean(d, w, body, s, fuel);
    }
    CleanRunsPreserved(w, kind, body, s, v, s');
  }

  // One condition

  /** `if cond { return 1 } return 0`. */
  function Tester(cond: Expr): Stmt {
    Block([If(cond, Block([Return(Some(Const(1, Wide)))]), None), Return(Some(Const(0, Wide)))])
  }

  lemma KnownRun(w: World, kind: FuncKind, body: Stmt, s: Store, actual: Option<int>, v: Option<int>, s': Store)
    requires Scoped(body, false)
    requires forall fuel: nat :: ExecFunction(w, false, kind, body, s, fuel) == Some((actual, s'))
    ensures Halts(w, kind, body, s, v, s') <==> v == actual
  {
    LoweringPreservesMeaning(w, kind, body, s, v, s');
    assert ExecFunction(w, false, kind, body, s, 0) == Some((actual, s'));
  }

  /** What the block graph of an `if` returns is the lowest bit of a condition kept in a byte. */
  lemma TesterHalts(w: World, cond: Expr, s: Store, body: Stmt, v: int)
    requires body == Tester(cond) && Scoped(body, false)
    ensures Halts(w, ValueFunction, body, s, Some(v), EvalExpr(w, cond, s).1)
      <==> v == BoolBit(Test(w, false, cond, s))
  {
    var s1 := EvalExpr(w, cond, s).1;
    var actual := BoolBit(Test(w, false, cond, s));
    forall fuel: nat
      ensures ExecFunction(w, false, ValueFunction, body, s, fuel) == Some((Some(actual), s1))
    {
      TesterRun(w, false, cond, s, fuel);
    }
    KnownRun(w, ValueFunction, body, s, Some(actual), Some(v), s1);
  }

  /**
   The lowered `if` returns what the condition means if and only if what the condition is about is not
   an even number other than zero that is tested as a byte.
   */
  lemma LoweredTestIsRight(w: World, cond: Expr, s: Store, body: Stmt)
    requires body == Tester(cond) && Scoped(body, false)
    ensures Halts(w, ValueFunction, body, s, Some(BoolBit(Test(w, true, cond, s))), EvalExpr(w, cond, s).1)
      <==> !Misjudged(w, cond, s)
  {
    MisjudgedIff(w, cond, s);
    TesterHalts(w, cond, s, body, BoolBit(Test(w, true, cond, s)));
  }

  /** A number as a condition, whatever its width above a bit: it is tested rightly if it is 0 or odd. */
  lemma NumberTestIsRight(w: World, x: Expr, s: Store, body: Stmt)
    requires body == Tester(CastToBool(x)) && Scoped(body, false)
    ensures var (n, s1) := EvalExpr(w, x, s);
      Halts(w, ValueFunction, body, s, Some(BoolBit(n != 0)), s1) <==> n == 0 || n % 2 == 1
  {
    LoweredTestIsRight(w, CastToBool(x), s, body);
  }

  lemma TesterRun(w: World, exact: bool, cond: Expr, s: Store, fuel: nat)
    ensures ExecFunction(w, exact, ValueFunction, Tester(cond), s, fuel)
      == Some((Some(BoolBit(Test(w, exact, cond, s))), EvalExpr(w, cond, s).1))
  {
    var one, zero := Return(Some(Const(1, Wide))), Return(Some(Const(0, Wide)));
    var test := If(cond, Block([one]), None);
    var s1 := EvalExpr(w, cond, s).1;
    assert ExecSeq(w, exact, [one], s1, fuel) == Exec(w, exact, one, s1, fuel);
    assert Exec(w, exact, one, s1, fuel) == Done(Returned(Some(1)), s1);
    assert Exec(w, exact, zero, s1, fuel) == Done(Returned(Some(0)), s1);
    assert ExecSeq(w, exact, [zero], s1, fuel) == Exec(w, exact, zero, s1, fuel);
    assert [test, zero][1..] == [zero];
    assert Exec(w, exact, Block([one]), s1, fuel) == ExecSeq(w, exact, [one], s1, fuel);
    var r := Exec(w, exact, test, s, fuel);
    assert r == if Test(w, exact, cond, s) then Done(Returned(Some(1)), s1) else Done(Normal, s1);
    assert ExecSeq(w, exact, [test, zero], s, fuel)
      == if EndsNormally(r) then ExecSeq(w, exact, [zero], r.store, fuel) else r;
  }

  lemma TesterScoped(cond: Expr)
    ensures Scoped(Tester(cond), false)
  {
    var one := Block([Return(Some(Const(1, Wide)))]);
    assert Scoped(one, false);
    assert Scoped(If(cond, one, None), false);
  }

  /** With such a condition the program returns 1, the block graph 0. */
  lemma MisjudgedTakenForFalse(w: World, cond: Expr, s: Store, body: Stmt)
    requires body == Tester(cond) && Scoped(body, false) && Misjudged(w, cond, s)
    ensures var s1 := EvalExpr(w, cond, s).1;
      && Runs(w, true, ValueFunction, body, s, Some(1), s1)
      && Halts(w, ValueFunction, body, s, Some(0), s1) && !Halts(w, ValueFunction, body, s, Some(1), s1)
  {
    MisjudgedIff(w, cond, s);
    TesterHalts(w, cond, s, body, 0);
    TesterHalts(w, cond, s, body, 1);
    TesterRun(w, true, cond, s, 0);
  }

  /** The byte 2, for example, the number 2, and the number 256, of which nothing is left in a byte. */
  lemma EvenTakenForFalse(w: World, s: Store, cond: Expr, body: Stmt)
    requires cond in [Const(2, I8), CastToBool(Const(2, Wide)), CastToBool(Const(256, Wide))]
    requires body == Tester(cond)
    ensures Scoped(body, false)
    ensures Runs(w, true, ValueFunction, body, s, Some(1), s)
    ensures Halts(w, ValueFunction, body, s, Some(0), s) && !Halts(w, ValueFunction, body, s, Some(1), s)
  {
    TesterScoped(cond);
    MisjudgedTakenForFalse(w, cond, s, body);
  }
}
