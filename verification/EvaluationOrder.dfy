/**
 What the late load of a left operand changes. An integer operator builds its operands from left to
 right, but a variable on the left is an address until the right operand has run; so a call on the
 right may change what is read.
 */
module EvaluationOrder {
  import opened Ir

  /** An operator applied to its operands. */
  datatype Operation = Operation(op: string, left: int, right: int)

  /** Value, store and the operators applied on the way, in that order. */
  datatype Effect = Effect(value: int, store: Store, ops: seq<Operation>)

  /** `inOrder` reads a variable on the left of an operator before the right operand runs. */
  function Traced(w: World, inOrder: bool, e: Expr, s: Store): Effect
    decreases e, 1
  {
    match e
    case Const(v, width) => Effect(Norm(width, v), s, [])
    case Load(name, width) => Effect(Norm(width, ReadVar(s, name)), s, [])
    case Call(callee, width, args) =>
      var (vs, s1, ops) := TracedArgs(w, inOrder, args, s);
      var (v, s2) := w.call(callee, vs, s1);
      Effect(Norm(width, v), s2, ops)
    case Arith(op, width, l, r) =>
      if l.Load? then
        var y := Traced(w, inOrder, r, s);
        var a := Norm(l.width, ReadVar(if inOrder then s else y.store, l.name));
        Effect(Norm(width, w.arith(op, a, y.value)), y.store, y.ops + [Operation(op, a, y.value)])
      else
        var x := Traced(w, inOrder, l, s);
        var y := Traced(w, inOrder, r, x.store);
        Effect(Norm(width, w.arith(op, x.value, y.value)), y.store, x.ops + y.ops + [Operation(op, x.value, y.value)])
    case And(l, r) =>
      var x := Traced(w, inOrder, l, s);
      if x.value == 0 then x.(value := 0)
      else
        var y := Traced(w, inOrder, r, x.store);
        Effect(BoolBit(y.value != 0), y.store, x.ops + y.ops)
    case Or(l, r) =>
      var x := Traced(w, inOrder, l, s);
      if x.value != 0 then x.(value := 1)
      else
        var y := Traced(w, inOrder, r, x.store);
        Effect(BoolBit(y.value != 0), y.store, x.ops + y.ops)
    case Not(x) =>
      var y := Traced(w, inOrder, x, s);
      y.(value := BoolBit(y.value == 0))
    case CastToBool(x) =>
      var y := Traced(w, inOrder, x, s);
      if x.WidthOf() == I8 then y else y.(value := Norm(I8, y.value))
  }

  function TracedArgs(w: World, inOrder: bool, es: seq<Expr>, s: Store): (seq<int>, Store, seq<Operation>)
    decreases es, 0
  {
    if es == [] then ([], s, [])
    else
      var x := Traced(w, inOrder, es[0], s);
      var (vs, s2, ops) := TracedArgs(w, inOrder, es[1..], x.store);
      ([x.value] + vs, s2, x.ops + ops)
  }

  /** Read late, the tracing is the meaning that the lowering preserves. */
  lemma {:induction false} TracedIsMeaning(w: World, e: Expr, s: Store)
    ensures var x := Traced(w, false, e, s); EvalExpr(w, e, s) == (x.value, x.store)
    decreases e, 1
  {
    match e
    case Const(_, _) =>
    case Load(_, _) =>
    case Call(_, _, args) => TracedArgsAreMeaning(w, args, s);
    case Arith(_, _, l, r) =>
      if l.Load? {
        TracedIsMeaning(w, r, s);
      } else {
        TracedIsMeaning(w, l, s);
        TracedIsMeaning(w, r, Traced(w, false, l, s).store);
      }
    case And(l, r) =>
      TracedIsMeaning(w, l, s);
      TracedIsMeaning(w, r, Traced(w, false, l, s).store);
    case Or(l, r) =>
      TracedIsMeaning(w, l, s);
      TracedIsMeaning(w, r, Traced(w, false, l, s).store);
    case Not(x) => TracedIsMeaning(w, x, s);
    case CastToBool(x) => TracedIsMeaning(w, x, s);
  }

  lemma {:induction false} TracedArgsAreMeaning(w: World, es: seq<Expr>, s: Store)
    ensures var (vs, s1, _) := TracedArgs(w, false, es, s); EvalArgs(w, es, s) == (vs, s1)
    decreases es, 0
  {
    if es != [] {
      TracedIsMeaning(w, es[0], s);
      TracedArgsAreMeaning(w, es[1..], Traced(w, false, es[0], s).store);
    }
  }

  // When the order matters

  /** The value of a variable is the same in both stores, as far as its width shows. */
  predicate Unchanged(l: Expr, s: Store, s': Store)
    requires l.Load?
  {
    Norm(l.width, ReadVar(s', l.name)) == Norm(l.width, ReadVar(s, l.name))
  }

  /** Wherever the evaluation from left to right comes to an operator with a variable on the left, the right
      operand leaves the value of that variable unchanged. */
  predicate Undisturbed(w: World, e: Expr, s: Store)
    decreases e, 1
  {
    match e
    case Const(_, _) => true
    case Load(_, _) => true
    case Call(_, _, args) => UndisturbedArgs(w, args, s)
    case Arith(_, _, l, r) =>
      if l.Load? then Undisturbed(w, r, s) && Unchanged(l, s, Traced(w, true, r, s).store)
      else Undisturbed(w, l, s) && Undisturbed(w, r, Traced(w, true, l, s).store)
    case And(l, r) =>
      var x := Traced(w, true, l, s);
      Undisturbed(w, l, s) && (x.value != 0 ==> Undisturbed(w, r, x.store))
    case Or(l, r) =>
      var x := Traced(w, true, l, s);
      Undisturbed(w, l, s) && (x.value == 0 ==> Undisturbed(w, r, x.store))
    case Not(x) => Undisturbed(w, x, s)
    case CastToBool(x) => Undisturbed(w, x, s)
  }

  predicate UndisturbedArgs(w: World, es: seq<Expr>, s: Store)
    decreases es, 0
  {
    es != [] ==> Undisturbed(w, es[0], s) && UndisturbedArgs(w, es[1..], Traced(w, true, es[0], s).store)
  }

  /** Some operator, the same number of operators before it, was applied to other operands. */
  ghost predicate Differ(a: seq<Operation>, b: seq<Operation>) {
    exists k :: 0 <= k < |a| && k < |b| && a[k] != b[k]
  }

  lemma DifferWithin(pre: seq<Operation>, a: seq<Operation>, b: seq<Operation>, c: seq<Operation>, d: seq<Operation>)
    requires Differ(a, b)
    ensures Differ(pre + a + c, pre + b + d)
  {
    var k :| 0 <= k < |a| && k < |b| && a[k] != b[k];
    assert (pre + a + c)[|pre| + k] == a[k] && (pre + b + d)[|pre| + k] == b[k];
  }

  lemma DifferFirst(a: seq<Operation>, b: seq<Operation>, c: seq<Operation>, d: seq<Operation>)
    requires Differ(a, b)
    ensures Differ(a + c, b + d)
  {
    DifferWithin([], a, b, c, d);
    assert [] + a + c == a + c && [] + b + d == b + d;
  }

  lemma DifferSecond(pre: seq<Operation>, a: seq<Operation>, b: seq<Operation>)
    requires Differ(a, b)
    ensures Differ(pre + a, pre + b)
  {
    DifferWithin(pre, a, b, [], []);
    assert pre + a + [] == pre + a && pre + b + [] == pre + b;
  }

  ghost predicate Told(w: World, e: Expr, s: Store) {
    var late, first := Traced(w, false, e, s), Traced(w, true, e, s);
    if Undisturbed(w, e, s) then late == first else Differ(late.ops, first.ops)
  }

  lemma {:induction false} OrderTold(w: World, e: Expr, s: Store)
    ensures Told(w, e, s)
    decreases e, 1
  {
    match e
    case Const(_, _) =>
    case Load(_, _) =>
    case Call(_, _, args) => ArgsTold(w, args, s);
    case Arith(_, _, _, _) => ArithTold(w, e, s);
    case And(_, _) => ShortCircuitTold(w, e, s);
    case Or(_, _) => ShortCircuitTold(w, e, s);
    case Not(x) => OrderTold(w, x, s);
    case CastToBool(x) => OrderTold(w, x, s);
  }

  lemma {:induction false} ArithTold(w: World, e: Expr, s: Store)
    requires e.Arith?
    ensures Told(w, e, s)
    decreases e, 0
  {
    var late, first := Traced(w, false, e, s), Traced(w, true, e, s);
    if e.left.Load? {
      OrderTold(w, e.right, s);
      var y, y' := Traced(w, false, e.right, s), Traced(w, true, e.right, s);
      if !Undisturbed(w, e.right, s) {
        DifferFirst(y.ops, y'.ops, late.ops[|y.ops|..], first.ops[|y'.ops|..]);
      } else {
        assert late.ops[|y.ops|] == first.ops[|y.ops|] <==> Unchanged(e.left, s, y.store);
      }
    } else {
      OrderTold(w, e.left, s);
      var x, x' := Traced(w, false, e.left, s), Traced(w, true, e.left, s);
      if !Undisturbed(w, e.left, s) {
        assert late.ops == x.ops + late.ops[|x.ops|..] && first.ops == x'.ops + first.ops[|x'.ops|..];
        DifferFirst(x.ops, x'.ops, late.ops[|x.ops|..], first.ops[|x'.ops|..]);
      } else {
        OrderTold(w, e.right, x.store);
        var y, y' := Traced(w, false, e.right, x.store), Traced(w, true, e.right, x.store);
        if !Undisturbed(w, e.right, x.store) {
          DifferWithin(x.ops, y.ops, y'.ops, late.ops[|x.ops + y.ops|..], first.ops[|x.ops + y'.ops|..]);
        }
      }
    }
  }

  lemma {:induction false} ShortCircuitTold(w: World, e: Expr, s: Store)
    requires e.And? || e.Or?
    ensures Told(w, e, s)
    decreases e, 0
  {
    var late, first := Traced(w, false, e, s), Traced(w, true, e, s);
    OrderTold(w, e.left, s);
    var x, x' := Traced(w, false, e.left, s), Traced(w, true, e.left, s);
    if !Undisturbed(w, e.left, s) {
      DifferFirst(x.ops, x'.ops, late.ops[|x.ops|..], first.ops[|x'.ops|..]);
    } else if (x.value == 0) == e.Or? {
      OrderTold(w, e.right, x.store);
      if !Undisturbed(w, e.right, x.store) {
        DifferSecond(x.ops, Traced(w, false, e.right, x.store).ops, Traced(w, true, e.right, x.store).ops);
      }
    }
  }

  lemma {:induction false} ArgsTold(w: World, es: seq<Expr>, s: Store)
    ensures var late, first := TracedArgs(w, false, es, s), TracedArgs(w, true, es, s);
      if UndisturbedArgs(w, es, s) then late == first else Differ(late.2, first.2)
    decreases es, 0
  {
    if es != [] {
      OrderTold(w, es[0], s);
      var x, x' := Traced(w, false, es[0], s), Traced(w, true, es[0], s);
      var rest, rest' := TracedArgs(w, false, es[1..], x.store), TracedArgs(w, true, es[1..], x'.store);
      if !Undisturbed(w, es[0], s) {
        DifferFirst(x.ops, x'.ops, rest.2, rest'.2);
      } else {
        ArgsTold(w, es[1..], x.store);
        if !UndisturbedArgs(w, es[1..], x.store) {
          DifferSecond(x.ops, rest.2, rest'.2);
        }
      }
    }
  }

  /**
   The lowered expression applies the same operators to the same operands as an evaluation from left to
   right if and only if no right operand changes the variable on its left. Then value and store are the
   same, too.
   */
  lemma OrderIsKeptIff(w: World, e: Expr, s: Store)
    ensures Traced(w, false, e, s).ops == Traced(w, true, e, s).ops <==> Undisturbed(w, e, s)
    ensures Undisturbed(w, e, s) ==>
      var first := Traced(w, true, e, s); EvalExpr(w, e, s) == (first.value, first.store)
  {
    OrderTold(w, e, s);
    TracedIsMeaning(w, e, s);
  }

  // Expressions without calls

  predicate CallFree(e: Expr) {
    match e
    case Const(_, _) => true
    case Load(_, _) => true
    case Call(_, _, _) => false
    case Arith(_, _, l, r) => CallFree(l) && CallFree(r)
    case And(l, r) => CallFree(l) && CallFree(r)
    case Or(l, r) => CallFree(l) && CallFree(r)
    case Not(x) => CallFree(x)
    case CastToBool(x) => CallFree(x)
  }

  /** Only calls disturb: without them an expression changes no variable, and the order does not matter. */
  lemma {:induction false} CallFreeUndisturbed(w: World, e: Expr, s: Store)
    requires CallFree(e)
    ensures Traced(w, true, e, s).store == s && Undisturbed(w, e, s)
    decreases e
  {
    match e
    case Const(_, _) =>
    case Load(_, _) =>
    case Arith(_, _, l, r) =>
      CallFreeUndisturbed(w, l, s);
      CallFreeUndisturbed(w, r, s);
    case And(l, r) =>
      CallFreeUndisturbed(w, l, s);
      CallFreeUndisturbed(w, r, s);
    case Or(l, r) =>
      CallFreeUndisturbed(w, l, s);
      CallFreeUndisturbed(w, r, s);
    case Not(x) => CallFreeUndisturbed(w, x, s);
    case CastToBool(x) => CallFreeUndisturbed(w, x, s);
  }

  /** `n - next()` where `next` counts `n` up and returns 0: from left to right it is the old `n`, and the
      lowered code has the new one. */
  lemma CounterReadLate(w: World, e: Expr, s: Store)
    requires e == Arith("-", Wide, Load("n", Wide), Call("next", Wide, []))
    requires w.arith("-", ReadVar(s, "n"), 0) == ReadVar(s, "n")
    requires w.arith("-", ReadVar(s, "n") + 1, 0) == ReadVar(s, "n") + 1
    requires w.call("next", [], s) == (0, s["n" := ReadVar(s, "n") + 1])
    ensures Traced(w, true, e, s).value == ReadVar(s, "n") && EvalExpr(w, e, s).0 == ReadVar(s, "n") + 1
    ensures !Undisturbed(w, e, s)
  {
    var r := Call("next", Wide, []);
    assert TracedArgs(w, true, [], s) == ([], s, []);
    assert TracedArgs(w, false, [], s) == ([], s, []);
    assert Traced(w, false, r, s) == Traced(w, true, r, s) == Effect(0, s["n" := ReadVar(s, "n") + 1], []);
    TracedIsMeaning(w, e, s);
  }
}
