/**
 The emitted block graph does what the structured program says: same store, same result, and it
 runs for ever exactly when the program does.
 */
module LoweringSound {
  import opened Ir
  import opened BlockGraph
  import opened Lowering
  import opened LoweringFrame

  /** Block `i` of the graph continues block `i` of what was emitted so far. */
  ghost predicate ContinuedAt(blocks: Graph, g: Graph, i: nat) {
    i < |blocks| ==> i < |g| && blocks[i] <= g[i]
  }

  /** The graph `g` contains everything emitted so far, each block possibly continued. */
  ghost predicate Within(blocks: Graph, g: Graph) {
    forall i :: ContinuedAt(blocks, g, i)
  }

  /** The machine stands right behind the code emitted so far. */
  ghost predicate AtEnd(c: Conf, st: State) {
    c.At? && c.block == st.cur && c.pc == |Here(st)|
  }

  ghost predicate AtStart(c: Conf, block: nat, s: Store) {
    c.At? && c.block == block && c.pc == 0 && c.store == s
  }

  ghost predicate Kept(before: Regs, after: Regs, k: nat) {
    forall i :: 0 <= i < k ==> RegValue(before, i) == RegValue(after, i)
  }

  predicate Below(o: Operand, k: nat) {
    o.Reg? ==> o.id < k
  }

  lemma WithinEarlier(a: State, b: State, g: Graph)
    requires Grows(a, b) && Within(b.blocks, g)
    ensures Within(a.blocks, g)
  {
    forall i: nat
      ensures ContinuedAt(a.blocks, g, i)
    {
      assert ContinuedAt(b.blocks, g, i);
    }
  }

  lemma WithinExpr(e: Expr, st: State, g: Graph)
    requires Within(EmitExpr(e, st).0.blocks, g)
    ensures Within(st.blocks, g)
  {
    ExprGrows(e, st);
    WithinEarlier(st, EmitExpr(e, st).0, g);
  }

  lemma WithinSame(a: Graph, b: Graph, g: Graph)
    requires |a| <= |b| && (forall i :: 0 <= i < |a| ==> a[i] == b[i]) && Within(b, g)
    ensures Within(a, g)
  {
    forall i: nat
      ensures ContinuedAt(a, g, i)
    {
      assert ContinuedAt(b, g, i);
    }
  }

  /** The instruction behind the code emitted so far is the one appended next. */
  lemma FetchAppended(st: State, i: Instr, g: Graph)
    requires Within(Append(st, i).blocks, g)
    ensures Within(st.blocks, g)
    ensures st.cur < |g| && |Here(st)| < |g[st.cur]| && g[st.cur][|Here(st)|] == i
  {
    assert ContinuedAt(Append(st, i).blocks, g, st.cur);
    forall k: nat
      ensures ContinuedAt(st.blocks, g, k)
    {
      assert ContinuedAt(Append(st, i).blocks, g, k);
    }
  }

  lemma StepOne(w: World, g: Graph, c: Conf)
    ensures Steps(w, g, c, 1) == Step(w, g, c)
  {
    assert Steps(w, g, c, 1) == Steps(w, g, Step(w, g, c), 0);
  }

  /** What one evaluated expression leaves: the machine behind its code, the value in its operand. */
  ghost predicate Computed(w: World, c: Conf, c': Conf, st: State, st': State, op: Operand, v: int, s: Store) {
    && AtEnd(c', st')
    && c'.store == s
    && Value(w, c'.regs, op) == v
    && c.At? && Kept(c.regs, c'.regs, st.next)
    && Below(op, st'.next)
    && st.next <= st'.next
  }

  /** Run one instruction that defines the next register. */
  lemma DefineSim(w: World, g: Graph, c: Conf, st: State, i: Instr) returns (c': Conf)
    requires AtEnd(c, st) && Within(Define(st, i).blocks, g)
    ensures st.cur < |g| && |Here(st)| < |g[st.cur]| && g[st.cur][|Here(st)|] == i
    ensures c' == Step(w, g, c) == Steps(w, g, c, 1) && |Here(Define(st, i))| == |Here(st)| + 1
  {
    FetchAppended(st, i, g);
    StepOne(w, g, c);
    c' := Step(w, g, c);
  }

  lemma {:induction false} ExprSim(w: World, e: Expr, st: State, g: Graph, c: Conf) returns (n: nat, c': Conf)
    requires AtEnd(c, st) && Within(EmitExpr(e, st).0.blocks, g)
    ensures c' == Steps(w, g, c, n)
    ensures var (st', op) := EmitExpr(e, st); var (v, s) := EvalExpr(w, e, c.store);
      Computed(w, c, c', st, st', op, v, s)
    decreases e, 1
  {
    match e
    case Const(_, _) => n, c' := 0, c;
    case Load(name, width) =>
      c' := DefineSim(w, g, c, st, LoadVar(st.next, width, name));
      n := 1;
    case Call(_, _, _) => n, c' := CallSim(w, e, st, g, c);
    case Arith(_, _, _, _) => n, c' := ArithSim(w, e, st, g, c);
    case And(_, _) => n, c' := ShortCircuitSim(w, e, st, g, c);
    case Or(_, _) => n, c' := ShortCircuitSim(w, e, st, g, c);
    case Not(_) => n, c' := NotSim(w, e, st, g, c);
    case CastToBool(_) => n, c' := CastSim(w, e, st, g, c);
  }

  lemma {:induction false} CallSim(w: World, e: Expr, st: State, g: Graph, c: Conf) returns (n: nat, c': Conf)
    requires e.Call? && AtEnd(c, st) && Within(EmitExpr(e, st).0.blocks, g)
    ensures c' == Steps(w, g, c, n)
    ensures var (st', op) := EmitExpr(e, st); var (v, s) := EvalExpr(w, e, c.store);
      Computed(w, c, c', st, st', op, v, s)
    decreases e, 0
  {
    var (st1, ops) := EmitArgs(e.args, st);
    var i := Invoke(st1.next, e.width, e.callee, ops);
    FetchAppended(st1, i, g);
    var n1, c1 := ArgsSim(w, e.args, st, g, c);
    c' := DefineSim(w, g, c1, st1, i);
    StepsAdd(w, g, c, n1, 1);
    n := n1 + 1;
  }

  lemma {:induction false} ArithSim(w: World, e: Expr, st: State, g: Graph, c: Conf) returns (n: nat, c': Conf)
    requires e.Arith? && AtEnd(c, st) && Within(EmitExpr(e, st).0.blocks, g)
    ensures c' == Steps(w, g, c, n)
    ensures var (st', op) := EmitExpr(e, st); var (v, s) := EvalExpr(w, e, c.store);
      Computed(w, c, c', st, st', op, v, s)
    decreases e, 0
  {
    var late := e.left.Load?;
    var first, second := if late then e.right else e.left, if late then e.left else e.right;
    var (st1, x) := EmitExpr(first, st);
    var (st2, y) := EmitExpr(second, st1);
    var i := Binary(st2.next, e.width, e.op, if late then y else x, if late then x else y);
    FetchAppended(st2, i, g);
    WithinExpr(second, st1, g);
    var n1, c1 := ExprSim(w, first, st, g, c);
    var n2, c2 := ExprSim(w, second, st1, g, c1);
    assert Value(w, c2.regs, x) == Value(w, c1.regs, x);
    c' := DefineSim(w, g, c2, st2, i);
    StepsAdd(w, g, c, n1, n2);
    StepsAdd(w, g, c, n1 + n2, 1);
    n := n1 + n2 + 1;
  }

  lemma {:induction false} NotSim(w: World, e: Expr, st: State, g: Graph, c: Conf) returns (n: nat, c': Conf)
    requires e.Not? && AtEnd(c, st) && Within(EmitExpr(e, st).0.blocks, g)
    ensures c' == Steps(w, g, c, n)
    ensures var (st', op) := EmitExpr(e, st); var (v, s) := EvalExpr(w, e, c.store);
      Computed(w, c, c', st, st', op, v, s)
    decreases e, 0
  {
    var (st1, a) := EmitExpr(e.arg, st);
    var (st2, b) := EmitToBool(st1, a);
    FetchAppended(st2, IsZero(st2.next, b), g);
    ToBoolWithin(st1, a, g);
    var n1, c1 := ExprSim(w, e.arg, st, g, c);
    var n2, c2 := ToBoolSim(w, g, c1, st1, a);
    c' := DefineSim(w, g, c2, st2, IsZero(st2.next, b));
    StepsAdd(w, g, c, n1, n2);
    StepsAdd(w, g, c, n1 + n2, 1);
    n := n1 + n2 + 1;
  }

  /** A cast to `bool` keeps the lowest byte. */
  lemma {:induction false} CastSim(w: World, e: Expr, st: State, g: Graph, c: Conf) returns (n: nat, c': Conf)
    requires e.CastToBool? && AtEnd(c, st) && Within(EmitExpr(e, st).0.blocks, g)
    ensures c' == Steps(w, g, c, n)
    ensures var (st', op) := EmitExpr(e, st); var (v, s) := EvalExpr(w, e, c.store);
      Computed(w, c, c', st, st', op, v, s)
    decreases e, 0
  {
    var (st1, a) := EmitExpr(e.arg, st);
    WidthKept(e.arg, st);
    if OperandWidth(a) != I8 {
      FetchAppended(st1, IntCast(st1.next, I8, a), g);
    }
    n, c' := ExprSim(w, e.arg, st, g, c);
    if OperandWidth(a) != I8 {
      var c1 := c';
      c' := DefineSim(w, g, c1, st1, IntCast(st1.next, I8, a));
      StepsAdd(w, g, c, n, 1);
      n := n + 1;
    }
  }

  lemma ToBoolWithin(st: State, v: Operand, g: Graph)
    requires Within(EmitToBool(st, v).0.blocks, g)
    ensures Within(st.blocks, g)
  {
    if OperandWidth(v) != I1 {
      FetchAppended(st, NonZero(st.next, v), g);
    }
  }

  /** `toBool` keeps whether a value is zero. */
  lemma ToBoolSim(w: World, g: Graph, c: Conf, st: State, v: Operand) returns (n: nat, c': Conf)
    requires AtEnd(c, st) && Within(EmitToBool(st, v).0.blocks, g) && Below(v, st.next)
    ensures c' == Steps(w, g, c, n)
    ensures var (st', op) := EmitToBool(st, v);
      && AtEnd(c', st') && c'.store == c.store
      && (Value(w, c'.regs, op) == 0 <==> Value(w, c.regs, v) == 0)
      && Kept(c.regs, c'.regs, st.next) && Below(op, st'.next) && st.next <= st'.next
      && OperandWidth(op) == I1
  {
    if OperandWidth(v) == I1 {
      n, c' := 0, c;
    } else {
      c' := DefineSim(w, g, c, st, NonZero(st.next, v));
      n := 1;
    }
  }

  /** A conditional branch goes to `thn` exactly when the condition, cut to its lowest bit if it is
      a byte, is not zero. */
  lemma CondBrSim(w: World, g: Graph, c: Conf, st: State, cond: Operand, thn: nat, els: nat) returns (n: nat, c': Conf)
    requires AtEnd(c, st) && Within(EmitCondBr(st, cond, thn, els).blocks, g) && Below(cond, st.next)
    ensures c' == Steps(w, g, c, n)
    ensures Within(st.blocks, g)
    ensures n > 0
    ensures AtStart(c', if Truth(OperandWidth(cond), Value(w, c.regs, cond)) then thn else els, c.store)
      && c'.prev == st.cur && Kept(c.regs, c'.regs, st.next)
  {
    if OperandWidth(cond) == I8 {
      var st1 := Define(st, Truncate(st.next, cond));
      FetchAppended(st1, CondBr(Reg(st.next, I1), thn, els), g);
      FetchAppended(st, Truncate(st.next, cond), g);
      var c1 := DefineSim(w, g, c, st, Truncate(st.next, cond));
      StepOne(w, g, c1);
      StepsAdd(w, g, c, 1, 1);
      n, c' := 2, Step(w, g, c1);
    } else {
      FetchAppended(st, CondBr(cond, thn, els), g);
      StepOne(w, g, c);
      n, c' := 1, Step(w, g, c);
    }
  }

  lemma ForkSim(w: World, g: Graph, c: Conf, isAnd: bool, st: State, left: Operand) returns (n: nat, c': Conf)
    requires AtEnd(c, st) && Within(EmitFork(isAnd, st, left).blocks, g) && Below(left, st.next)
    ensures c' == Steps(w, g, c, n)
    ensures AtStart(c', if (Value(w, c.regs, left) != 0) == isAnd then |st.blocks| else |st.blocks| + 1, c.store)
      && c'.prev == st.cur && Kept(c.regs, c'.regs, st.next)
  {
    var (st1, a) := EmitToBool(st, left);
    var t := |st.blocks|;
    var st2 := NewBlocks(st1, 2);
    var thn, els := if isAnd then t else t + 1, if isAnd then t + 1 else t;
    var code := EmitCondBr(st2, a, thn, els);
    assert Grows(st2, code);
    assert Within(code.blocks, g);
    WithinEarlier(st2, code, g);
    WithinSame(st1.blocks, st2.blocks, g);
    var n1, c1 := ToBoolSim(w, g, c, st, left);
    var n2, c2 := CondBrSim(w, g, c1, st2, a, thn, els);
    StepsAdd(w, g, c, n1, n2);
    n, c' := n1 + n2, c2;
  }

  /** Comparison of the right operand and branch to the join block. */
  lemma JoinReached(w: World, g: Graph, c: Conf, st: State, right: Operand, join: nat) returns (n: nat, c': Conf)
    requires AtEnd(c, st) && Below(right, st.next)
    requires var (st1, b) := EmitToBool(st, right);
      Within(Append(Define(st1, NonZero(st1.next, b)), Br(join)).blocks, g)
    ensures c' == Steps(w, g, c, n)
    ensures var st1 := EmitToBool(st, right).0;
      && AtStart(c', join, c.store) && c'.prev == st.cur && Kept(c.regs, c'.regs, st.next)
      && Value(w, c'.regs, Reg(st1.next, I1)) == BoolBit(Value(w, c.regs, right) != 0)
  {
    var (st1, b) := EmitToBool(st, right);
    var st2 := Define(st1, NonZero(st1.next, b));
    FetchAppended(st2, Br(join), g);
    FetchAppended(st1, NonZero(st1.next, b), g);
    var n1, c1 := ToBoolSim(w, g, c, st, right);
    var c2 := DefineSim(w, g, c1, st1, NonZero(st1.next, b));
    StepOne(w, g, c2);
    c' := Step(w, g, c2);
    StepsAdd(w, g, c, n1, 1);
    StepsAdd(w, g, c, n1 + 1, 1);
    n := n1 + 2;
  }

  /** The right operand was evaluated: its truth value reaches the phi. */
  lemma JoinSim(w: World, g: Graph, c: Conf, isAnd: bool, st: State, right: Operand, from: nat, join: nat)
    returns (n: nat, c': Conf)
    requires join < |st.blocks| && join != st.cur && st.blocks[join] == [] && from != st.cur
    requires AtEnd(c, st) && Within(EmitJoin(isAnd, st, right, from, join).0.blocks, g) && Below(right, st.next)
    ensures c' == Steps(w, g, c, n)
    ensures var (st', op) := EmitJoin(isAnd, st, right, from, join);
      Computed(w, c, c', st, st', op, BoolBit(Value(w, c.regs, right) != 0), c.store)
  {
    var (st1, b) := EmitToBool(st, right);
    var st3 := MoveTo(Append(Define(st1, NonZero(st1.next, b)), Br(join)), join);
    var phi := Phi(st3.next, Imm(BoolBit(!isAnd), I1), from, Reg(st1.next, I1), st1.cur);
    FetchAppended(st3, phi, g);
    var n1, c1 := JoinReached(w, g, c, st, right, join);
    c' := DefineSim(w, g, c1, st3, phi);
    StepsAdd(w, g, c, n1, 1);
    n := n1 + 1;
  }

  /** The left operand decided: the phi takes its constant. */
  lemma SkipSim(w: World, g: Graph, c: Conf, isAnd: bool, st: State, right: Operand, from: nat, join: nat)
    returns (n: nat, c': Conf)
    requires join < |st.blocks| && join != st.cur && st.blocks[join] == []
    requires c.At? && AtStart(c, join, c.store) && c.prev == from
    requires Within(EmitJoin(isAnd, st, right, from, join).0.blocks, g)
    ensures c' == Steps(w, g, c, n)
    ensures var (st', op) := EmitJoin(isAnd, st, right, from, join);
      Computed(w, c, c', st, st', op, BoolBit(!isAnd), c.store)
  {
    var (st1, b) := EmitToBool(st, right);
    var st2 := Define(st1, NonZero(st1.next, b));
    var st3 := MoveTo(Append(st2, Br(join)), join);
    var phi := Phi(st3.next, Imm(BoolBit(!isAnd), I1), from, Reg(st1.next, I1), st1.cur);
    c' := DefineSim(w, g, c, st3, phi);
    n := 1;
  }

  lemma JoinWithin(isAnd: bool, st: State, right: Operand, from: nat, join: nat, g: Graph)
    requires join < |st.blocks| && Within(EmitJoin(isAnd, st, right, from, join).0.blocks, g)
    ensures Within(st.blocks, g)
  {
    var (st1, b) := EmitToBool(st, right);
    var st2 := Define(st1, NonZero(st1.next, b));
    var st3 := MoveTo(Append(st2, Br(join)), join);
    FetchAppended(st3, Phi(st3.next, Imm(BoolBit(!isAnd), I1), from, Reg(st1.next, I1), st1.cur), g);
    FetchAppended(st2, Br(join), g);
    FetchAppended(st1, NonZero(st1.next, b), g);
    ToBoolWithin(st, right, g);
  }

  lemma RightWithin(isAnd: bool, r: Expr, st: State, left: Operand, g: Graph)
    requires Within(EmitRight(isAnd, r, st, left).0.blocks, g)
    ensures Within(EmitFork(isAnd, st, left).blocks, g)
    ensures Within(EmitExpr(r, EmitFork(isAnd, st, left)).0.blocks, g)
    ensures Within(st.blocks, g)
  {
    var st1 := EmitFork(isAnd, st, left);
    var (st2, b) := EmitExpr(r, st1);
    JoinWithin(isAnd, st2, b, st.cur, |st.blocks| + 1, g);
    WithinExpr(r, st1, g);
    ForkGrows(isAnd, st, left);
    WithinEarlier(st, st1, g);
  }

  /** Value and store of `&&` (`||`) once its left operand is known: the right operand runs only if
      the left one does not decide. */
  function RightValue(w: World, isAnd: bool, left: int, r: Expr, s: Store): (int, Store) {
    if (left != 0) == isAnd then
      var (b, s1) := EvalExpr(w, r, s);
      (BoolBit(b != 0), s1)
    else (BoolBit(!isAnd), s)
  }

  lemma {:induction false} RightSim(w: World, isAnd: bool, r: Expr, st: State, left: Operand, g: Graph, c: Conf)
    returns (n: nat, c': Conf)
    requires AtEnd(c, st) && Below(left, st.next) && Within(EmitRight(isAnd, r, st, left).0.blocks, g)
    ensures c' == Steps(w, g, c, n)
    ensures var (st', op) := EmitRight(isAnd, r, st, left);
      var (v, s) := RightValue(w, isAnd, Value(w, c.regs, left), r, c.store);
      Computed(w, c, c', st, st', op, v, s)
    decreases r, 3
  {
    RightWithin(isAnd, r, st, left, g);
    ForkGrows(isAnd, st, left);
    var n1, c1 := ForkSim(w, g, c, isAnd, st, left);
    var st1 := EmitFork(isAnd, st, left);
    var n2, c2;
    if (Value(w, c.regs, left) != 0) == isAnd {
      n2, c2 := RightTaken(w, isAnd, r, st, st1, g, c1);
    } else {
      n2, c2 := RightSkipped(w, isAnd, r, st, st1, g, c1);
    }
    StepsAdd(w, g, c, n1, n2);
    n, c' := n1 + n2, c2;
  }

  lemma {:induction false} RightTaken(w: World, isAnd: bool, r: Expr, st: State, st1: State, g: Graph, c: Conf)
    returns (n: nat, c': Conf)
    requires st.next <= st1.next && |st1.blocks| == |st.blocks| + 2 && st1.cur == |st.blocks|
    requires st1.blocks[|st.blocks| + 1] == []
    requires AtEnd(c, st1) && Within(EmitExpr(r, st1).0.blocks, g)
    requires Within(EmitJoin(isAnd, EmitExpr(r, st1).0, EmitExpr(r, st1).1, st.cur, |st.blocks| + 1).0.blocks, g)
    ensures c' == Steps(w, g, c, n)
    ensures var (st2, b) := EmitExpr(r, st1);
      var (st', op) := EmitJoin(isAnd, st2, b, st.cur, |st.blocks| + 1); var (v, s) := EvalExpr(w, r, c.store);
      Computed(w, c, c', st, st', op, BoolBit(v != 0), s)
    decreases r, 2
  {
    var (st2, b) := EmitExpr(r, st1);
    ExprKeepsBlock(r, st1, |st.blocks| + 1);
    ExprKeepsBlock(r, st1, st.cur);
    var n1, c1 := ExprSim(w, r, st1, g, c);
    var n2, c2 := JoinSim(w, g, c1, isAnd, st2, b, st.cur, |st.blocks| + 1);
    StepsAdd(w, g, c, n1, n2);
    n, c' := n1 + n2, c2;
  }

  lemma RightSkipped(w: World, isAnd: bool, r: Expr, st: State, st1: State, g: Graph, c: Conf)
    returns (n: nat, c': Conf)
    requires st.next <= st1.next && |st1.blocks| == |st.blocks| + 2 && st1.cur == |st.blocks|
    requires st1.blocks[|st.blocks| + 1] == []
    requires c.At? && AtStart(c, |st.blocks| + 1, c.store) && c.prev == st.cur
    requires Within(EmitJoin(isAnd, EmitExpr(r, st1).0, EmitExpr(r, st1).1, st.cur, |st.blocks| + 1).0.blocks, g)
    ensures c' == Steps(w, g, c, n)
    ensures var (st2, b) := EmitExpr(r, st1);
      var (st', op) := EmitJoin(isAnd, st2, b, st.cur, |st.blocks| + 1);
      Computed(w, c, c', st, st', op, BoolBit(!isAnd), c.store)
  {
    var (st2, b) := EmitExpr(r, st1);
    ExprKeepsBlock(r, st1, |st.blocks| + 1);
    n, c' := SkipSim(w, g, c, isAnd, st2, b, st.cur, |st.blocks| + 1);
  }

  /** `&&` and `||`. */
  lemma {:induction false} ShortCircuitSim(w: World, e: Expr, st: State, g: Graph, c: Conf) returns (n: nat, c': Conf)
    requires (e.And? || e.Or?) && AtEnd(c, st) && Within(EmitExpr(e, st).0.blocks, g)
    ensures c' == Steps(w, g, c, n)
    ensures var (st', op) := EmitExpr(e, st); var (v, s) := EvalExpr(w, e, c.store);
      Computed(w, c, c', st, st', op, v, s)
    decreases e, 0
  {
    var (st1, a) := EmitExpr(e.left, st);
    RightWithin(e.And?, e.right, st1, a, g);
    var n1, c1 := ExprSim(w, e.left, st, g, c);
    var n2, c2 := RightSim(w, e.And?, e.right, st1, a, g, c1);
    StepsAdd(w, g, c, n1, n2);
    n, c' := n1 + n2, c2;
  }

  lemma {:induction false} ArgsSim(w: World, es: seq<Expr>, st: State, g: Graph, c: Conf) returns (n: nat, c': Conf)
    requires AtEnd(c, st) && Within(EmitArgs(es, st).0.blocks, g)
    ensures c' == Steps(w, g, c, n)
    ensures var (st', ops) := EmitArgs(es, st); var (vs, s) := EvalArgs(w, es, c.store);
      && AtEnd(c', st') && c'.store == s && Values(w, c'.regs, ops) == vs
      && Kept(c.regs, c'.regs, st.next) && (forall o | o in ops :: Below(o, st'.next)) && st.next <= st'.next
    decreases es, 0
  {
    if es == [] {
      n, c' := 0, c;
    } else {
      var (st1, op) := EmitExpr(es[0], st);
      var (st2, ops) := EmitArgs(es[1..], st1);
      ArgsGrow(es[1..], st1);
      WithinEarlier(st1, st2, g);
      var n1, c1 := ExprSim(w, es[0], st, g, c);
      var n2, c2 := ArgsSim(w, es[1..], st1, g, c1);
      StepsAdd(w, g, c, n1, n2);
      assert Value(w, c2.regs, op) == Value(w, c1.regs, op);
      assert ([op] + ops)[1..] == ops;
      n, c' := n1 + n2, c2;
    }
  }
}
