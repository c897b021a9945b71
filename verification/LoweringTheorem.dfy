/** Statements, and the main theorem: a function and its block graph compute the same. */
module LoweringTheorem {
  import opened Wrappers
  import opened Ir
  import opened BlockGraph
  import opened Lowering
  import opened LoweringFrame
  import opened LoweringSound

  // Within, one emission at a time

  lemma WithinCondBr(st: State, cond: Operand, thn: nat, els: nat, g: Graph)
    requires Within(EmitCondBr(st, cond, thn, els).blocks, g)
    ensures Within(st.blocks, g)
  {
    if OperandWidth(cond) == I8 {
      FetchAppended(Define(st, Truncate(st.next, cond)), CondBr(Reg(st.next, I1), thn, els), g);
      FetchAppended(st, Truncate(st.next, cond), g);
    } else {
      FetchAppended(st, CondBr(cond, thn, els), g);
    }
  }

  lemma WithinTest(cond: Expr, st: State, thn: nat, els: nat, g: Graph)
    requires Within(EmitTest(cond, st, thn, els).blocks, g)
    ensures Within(EmitExpr(cond, st).0.blocks, g) && Within(st.blocks, g)
  {
    WithinCondBr(EmitExpr(cond, st).0, EmitExpr(cond, st).1, thn, els, g);
    WithinExpr(cond, st, g);
  }

  lemma WithinStmt(s: Stmt, st: State, g: Graph)
    requires Scoped(s, st.loop.Some?) && Within(EmitStmt(s, st).blocks, g)
    ensures Within(st.blocks, g)
  {
    StmtGrows(s, st);
    WithinEarlier(st, EmitStmt(s, st), g);
  }

  lemma WithinArm(s: Stmt, st: State, b: nat, target: nat, g: Graph)
    requires Scoped(s, st.loop.Some?) && b < |st.blocks| && Within(EmitArm(s, st, b, target).blocks, g)
    ensures Within(EmitStmt(s, MoveTo(st, b)).blocks, g) && Within(st.blocks, g)
  {
    var st1 := EmitStmt(s, MoveTo(st, b));
    if !Terminated(st1) {
      FetchAppended(st1, Br(target), g);
    }
    WithinStmt(s, MoveTo(st, b), g);
  }

  /** An expression never ends its block. */
  lemma {:induction false} ExprLeavesOpen(e: Expr, st: State)
    requires !Terminated(st)
    ensures !Terminated(EmitExpr(e, st).0)
    decreases e
  {
    if e.CastToBool? {
      ExprLeavesOpen(e.arg, st);
    }
  }

  /** If a statement can come to its normal end, its emission leaves the insertion block open. */
  lemma {:induction false} NormalEndOpen(w: World, s: Stmt, st: State, store: Store, fuel: nat)
    requires Scoped(s, st.loop.Some?) && !Terminated(st)
    requires var r := Exec(w, false, s, store, fuel); r.Done? && r.outcome.Normal?
    ensures !Terminated(EmitStmt(s, st))
    decreases s, 1
  {
    match s
    case Block(stmts) => NormalEndOpenSeq(w, stmts, st, store, fuel);
    case Eval(e) => ExprLeavesOpen(e, st);
    case Assign(_, e) =>
    case If(_, _, _) => IfEndsEmpty(s, st);
    case Loop(_, _, _, _) => LoopEndsEmpty(s, st);
    case _ =>
  }

  lemma {:induction false} NormalEndOpenSeq(w: World, stmts: seq<Stmt>, st: State, store: Store, fuel: nat)
    requires (forall x | x in stmts :: Scoped(x, st.loop.Some?)) && !Terminated(st)
    requires var r := ExecSeq(w, false, stmts, store, fuel); r.Done? && r.outcome.Normal?
    ensures !Terminated(EmitSeq(stmts, st))
    decreases stmts, 0
  {
    if stmts != [] {
      NormalEndOpen(w, stmts[0], st, store, fuel);
      NormalEndOpenSeq(w, stmts[1..], EmitStmt(stmts[0], st), Exec(w, false, stmts[0], store, fuel).store, fuel);
    }
  }

  // Simulation of statements

  /**
   Where the machine is after the code of a statement: the outcomes other than the normal one are
   jumps to the targets of the enclosing loop or the end of the run; a program that is still
   looping after `fuel` iterations keeps the machine busy for at least as many steps.
   */
  ghost predicate Leaves(r: Run, n: nat, c: Conf, loop: Option<Targets>, fuel: nat)
    requires r.OutOfFuel? || !r.outcome.Normal?
  {
    match r
    case OutOfFuel => c.At? && fuel <= n
    case Done(Broke, s) => loop.Some? && AtStart(c, loop.value.breakBlock, s)
    case Done(Continued, s) => loop.Some? && AtStart(c, loop.value.continueBlock, s)
    case Done(Returned(v), s) => c == Halt(v, s)
  }

  predicate EndsNormally(r: Run) {
    r.Done? && r.outcome.Normal?
  }

  /** Normal end at the end of the emitted code. */
  ghost predicate Simulates(r: Run, n: nat, c: Conf, st': State, loop: Option<Targets>, fuel: nat) {
    if EndsNormally(r) then AtEnd(c, st') && c.store == r.store else Leaves(r, n, c, loop, fuel)
  }

  /** Normal end at the start of block `b`. */
  ghost predicate SimulatesTo(r: Run, n: nat, c: Conf, b: nat, loop: Option<Targets>, fuel: nat) {
    if EndsNormally(r) then AtStart(c, b, r.store) else Leaves(r, n, c, loop, fuel)
  }

  lemma TestSim(w: World, cond: Expr, st: State, thn: nat, els: nat, g: Graph, c: Conf) returns (n: nat, c': Conf)
    requires AtEnd(c, st) && Within(EmitTest(cond, st, thn, els).blocks, g)
    ensures c' == Steps(w, g, c, n) && n > 0
    ensures var (v, s) := EvalExpr(w, cond, c.store);
      AtStart(c', if Truth(cond.WidthOf(), v) then thn else els, s)
  {
    WithinTest(cond, st, thn, els, g);
    var (st1, op) := EmitExpr(cond, st);
    var n1, c1 := ExprSim(w, cond, st, g, c);
    WidthKept(cond, st);
    var n2, c2 := CondBrSim(w, g, c1, st1, op, thn, els);
    StepsAdd(w, g, c, n1, n2);
    n, c' := n1 + n2, c2;
  }

  lemma BrSim(w: World, st: State, target: nat, g: Graph, c: Conf) returns (c': Conf)
    requires AtEnd(c, st) && Within(Append(st, Br(target)).blocks, g)
    ensures Within(st.blocks, g)
    ensures c' == Steps(w, g, c, 1) && AtStart(c', target, c.store)
  {
    FetchAppended(st, Br(target), g);
    StepOne(w, g, c);
    c' := Step(w, g, c);
  }

  lemma {:induction false} StmtSim(w: World, s: Stmt, st: State, g: Graph, c: Conf, fuel: nat)
    returns (n: nat, c': Conf)
    requires Scoped(s, st.loop.Some?) && !Terminated(st)
    requires AtEnd(c, st) && Within(EmitStmt(s, st).blocks, g)
    ensures c' == Steps(w, g, c, n)
    ensures Simulates(Exec(w, false, s, c.store, fuel), n, c', EmitStmt(s, st), st.loop, fuel)
    decreases fuel, s, 1
  {
    match s
    case Block(stmts) => n, c' := SeqSim(w, stmts, st, g, c, fuel);
    case Eval(e) => n, c' := ExprSim(w, e, st, g, c);
    case Assign(name, e) =>
      var (st1, v) := EmitExpr(e, st);
      FetchAppended(st1, StoreVar(name, v), g);
      var n1, c1 := ExprSim(w, e, st, g, c);
      StepOne(w, g, c1);
      StepsAdd(w, g, c, n1, 1);
      n, c' := n1 + 1, Step(w, g, c1);
    case If(_, _, _) => n, c' := IfSim(w, s, st, g, c, fuel);
    case Loop(_, _, _, _) => n, c' := LoopSim(w, s, st, g, c, fuel);
    case Break => n := 1; c' := BrSim(w, st, st.loop.value.breakBlock, g, c);
    case Continue => n := 1; c' := BrSim(w, st, st.loop.value.continueBlock, g, c);
    case Return(None) =>
      FetchAppended(st, Ret(None), g);
      StepOne(w, g, c);
      n, c' := 1, Step(w, g, c);
    case Return(Some(e)) =>
      var (st1, v) := EmitExpr(e, st);
      FetchAppended(st1, Ret(Some(v)), g);
      var n1, c1 := ExprSim(w, e, st, g, c);
      StepOne(w, g, c1);
      StepsAdd(w, g, c, n1, 1);
      n, c' := n1 + 1, Step(w, g, c1);
  }

  lemma {:induction false} SeqSim(w: World, stmts: seq<Stmt>, st: State, g: Graph, c: Conf, fuel: nat)
    returns (n: nat, c': Conf)
    requires (forall x | x in stmts :: Scoped(x, st.loop.Some?)) && !Terminated(st)
    requires AtEnd(c, st) && Within(EmitSeq(stmts, st).blocks, g)
    ensures c' == Steps(w, g, c, n)
    ensures Simulates(ExecSeq(w, false, stmts, c.store, fuel), n, c', EmitSeq(stmts, st), st.loop, fuel)
    decreases fuel, stmts, 0
  {
    if stmts == [] {
      n, c' := 0, c;
    } else {
      var st1 := EmitStmt(stmts[0], st);
      SeqGrows(stmts[1..], st1);
      WithinEarlier(st1, EmitSeq(stmts, st), g);
      n, c' := StmtSim(w, stmts[0], st, g, c, fuel);
      if EndsNormally(Exec(w, false, stmts[0], c.store, fuel)) {
        NormalEndOpen(w, stmts[0], st, c.store, fuel);
        var n2, c2 := SeqSim(w, stmts[1..], st1, g, c', fuel);
        StepsAdd(w, g, c, n, n2);
        n, c' := n + n2, c2;
      }
    }
  }

  lemma {:induction false} ArmSim(w: World, s: Stmt, st: State, b: nat, target: nat, g: Graph, c: Conf, fuel: nat)
    returns (n: nat, c': Conf)
    requires Scoped(s, st.loop.Some?) && b < |st.blocks| && st.blocks[b] == []
    requires c.At? && AtStart(c, b, c.store) && Within(EmitArm(s, st, b, target).blocks, g)
    ensures c' == Steps(w, g, c, n)
    ensures SimulatesTo(Exec(w, false, s, c.store, fuel), n, c', target, st.loop, fuel)
    decreases fuel, s, 2
  {
    WithinArm(s, st, b, target, g);
    n, c' := StmtSim(w, s, MoveTo(st, b), g, c, fuel);
    if EndsNormally(Exec(w, false, s, c.store, fuel)) {
      NormalEndOpen(w, s, MoveTo(st, b), c.store, fuel);
      var c2 := BrSim(w, EmitStmt(s, MoveTo(st, b)), target, g, c');
      StepsAdd(w, g, c, n, 1);
      n, c' := n + 1, c2;
    }
  }

  lemma ThenWithin(s: Stmt, st: State, st1: State, g: Graph)
    requires s.If? && Scoped(s.thn, st1.loop.Some?) && |st.blocks| < |st1.blocks|
    requires Within(EmitArm(s.thn, st1, |st.blocks|, |st.blocks| + 2).blocks, g)
    ensures Within(st1.blocks, g)
  {
    WithinArm(s.thn, st1, |st.blocks|, |st.blocks| + 2, g);
  }

  lemma FirstWithin(s: Stmt, st: State, g: Graph)
    requires s.If? && Scoped(s, st.loop.Some?) && Within(EmitThen(s, st).blocks, g)
    ensures Within(EmitArm(s.thn, EmitBranch(s.cond, st), |st.blocks|, |st.blocks| + 2).blocks, g)
  {
    assert EmitThen(s, st).blocks == EmitArm(s.thn, EmitBranch(s.cond, st), |st.blocks|, |st.blocks| + 2).blocks;
  }

  lemma LastWithin(s: Stmt, st: State, g: Graph)
    requires s.If? && Scoped(s, st.loop.Some?) && Within(EmitIf(s, st).blocks, g)
    ensures Within(EmitElse(s, EmitThen(s, st), |st.blocks|).blocks, g)
  {
    assert EmitIf(s, st).blocks == EmitElse(s, EmitThen(s, st), |st.blocks|).blocks;
  }

  lemma IfWithin(s: Stmt, st: State, g: Graph)
    requires s.If? && Scoped(s, st.loop.Some?) && Within(EmitIf(s, st).blocks, g)
    ensures Within(EmitBranch(s.cond, st).blocks, g) && Within(EmitThen(s, st).blocks, g)
    ensures Within(EmitElse(s, EmitThen(s, st), |st.blocks|).blocks, g)
  {
    LastWithin(s, st, g);
    WithinElse(s, EmitThen(s, st), |st.blocks|, g);
    FirstWithin(s, st, g);
    ThenWithin(s, st, EmitBranch(s.cond, st), g);
  }

  lemma WithinElse(s: Stmt, st: State, t: nat, g: Graph)
    requires s.If? && Scoped(s, st.loop.Some?) && t + 1 < |st.blocks| && Within(EmitElse(s, st, t).blocks, g)
    ensures Within(st.blocks, g)
  {
    if s.els.Some? {
      WithinArm(s.els.value, st, t + 1, t + 2, g);
    } else {
      FetchAppended(MoveTo(st, t + 1), Br(t + 2), g);
    }
  }

  lemma {:induction false} IfSim(w: World, s: Stmt, st: State, g: Graph, c: Conf, fuel: nat) returns (n: nat, c': Conf)
    requires s.If? && Scoped(s, st.loop.Some?)
    requires AtEnd(c, st) && Within(EmitIf(s, st).blocks, g)
    ensures c' == Steps(w, g, c, n)
    ensures Simulates(Exec(w, false, s, c.store, fuel), n, c', EmitIf(s, st), st.loop, fuel)
    decreases fuel, s, 0, 1
  {
    var t := |st.blocks|;
    var st1 := EmitBranch(s.cond, st);
    IfWithin(s, st, g);
    BranchKeepsBlock(s.cond, st, t);
    ThenKeepsBlock(s, st, t + 1);
    IfEndsEmpty(s, st);
    var n1, c1 := TestSim(w, s.cond, NewBlocks(st, 3), t, t + 1, g, c);
    var n2, c2;
    if c1.block == t {
      n2, c2 := ArmSim(w, s.thn, st1, t, t + 2, g, c1, fuel);
    } else {
      n2, c2 := ElseSim(w, s, EmitThen(s, st), t, g, c1, fuel);
    }
    StepsAdd(w, g, c, n1, n2);
    n, c' := n1 + n2, c2;
  }

  lemma {:induction false} ElseSim(w: World, s: Stmt, st: State, t: nat, g: Graph, c: Conf, fuel: nat)
    returns (n: nat, c': Conf)
    requires s.If? && Scoped(s, st.loop.Some?) && t + 1 < |st.blocks| && st.blocks[t + 1] == []
    requires Within(EmitElse(s, st, t).blocks, g) && c.At? && AtStart(c, t + 1, c.store)
    ensures c' == Steps(w, g, c, n)
    ensures var r := if s.els.Some? then Exec(w, false, s.els.value, c.store, fuel) else Done(Normal, c.store);
      SimulatesTo(r, n, c', t + 2, st.loop, fuel)
    decreases fuel, s, 0, 0
  {
    if s.els.Some? {
      n, c' := ArmSim(w, s.els.value, st, t + 1, t + 2, g, c, fuel);
    } else {
      n := 1;
      c' := BrSim(w, MoveTo(st, t + 1), t + 2, g, c);
    }
  }

  predicate GoesOn(r: Run) {
    r.Done? && (r.outcome.Normal? || r.outcome.Continued?)
  }

  /** One test and, if it holds, one run of the body; `next` is where the body's end and `continue` lead. */
  lemma {:induction false} IterationSim(w: World, s: Stmt, st1: State, st2: State, h: nat, next: nat, g: Graph,
      c: Conf, fuel: nat) returns (n: nat, c': Conf)
    requires s.Loop? && Scoped(s, false) && st1.cur == h && h + 3 <= |st1.blocks| && Here(st1) == []
    requires st2.blocks == EmitTest(s.cond, st1, h + 1, h + 2).blocks && st2.blocks[h + 1] == []
    requires st2.loop == Some(Targets(next, h + 2))
    requires c.At? && AtStart(c, h, c.store)
    requires Within(st2.blocks, g) && Within(EmitArm(s.body, st2, h + 1, next).blocks, g)
    ensures c' == Steps(w, g, c, n) && n > 0
    ensures var (v, s1) := EvalExpr(w, s.cond, c.store); var r := Exec(w, false, s.body, s1, fuel);
      if !Truth(s.cond.WidthOf(), v) then AtStart(c', h + 2, s1)
      else if GoesOn(r) then AtStart(c', next, r.store)
      else if r.Done? && r.outcome.Broke? then AtStart(c', h + 2, r.store)
      else Leaves(r, n, c', None, fuel)
    decreases fuel, s, 0, 0, 0
  {
    n, c' := TestSim(w, s.cond, st1, h + 1, h + 2, g, c);
    if c'.block == h + 1 {
      var n2, c2 := ArmSim(w, s.body, st2, h + 1, next, g, c', fuel);
      StepsAdd(w, g, c, n, n2);
      n, c' := n + n2, c2;
    }
  }

  /** Iterations of a test-first loop without a step, from its test block. */
  lemma {:induction false} WhileSim(w: World, s: Stmt, st: State, h: nat, g: Graph, c: Conf, fuel: nat)
    returns (n: nat, c': Conf)
    requires s.Loop? && !s.doWhile && s.step.None? && Scoped(s, false)
    requires st.cur < h && h + 3 <= |st.blocks| && st.blocks[h] == st.blocks[h + 1] == []
    requires st.loop == Some(Targets(h, h + 2))
    requires c.At? && AtStart(c, h, c.store) && Within(EmitWhile(s, st, h).blocks, g)
    ensures c' == Steps(w, g, c, n)
    ensures SimulatesTo(Exec(w, false, s, c.store, fuel), n, c', h + 2, None, fuel)
    decreases fuel, s, 0, 1
  {
    if fuel == 0 {
      return 0, c;
    }
    var st1 := MoveTo(Append(st, Br(h)), h);
    var st2 := EmitTest(s.cond, st1, h + 1, h + 2);
    WithinArm(s.body, st2, h + 1, h, g);
    TestKeepsBlock(s.cond, st1, h + 1, h + 2, h + 1);
    n, c' := IterationSim(w, s, st1, st2, h, h, g, c, fuel);
    var (v, s1) := EvalExpr(w, s.cond, c.store);
    if Truth(s.cond.WidthOf(), v) && GoesOn(Exec(w, false, s.body, s1, fuel)) {
      var n2, c2 := WhileSim(w, s, st, h, g, c', fuel - 1);
      StepsAdd(w, g, c, n, n2);
      n, c' := n + n2, c2;
    }
  }

  /** One test of a loop with a step, and if it holds the body and the step. */
  lemma {:induction false} ForRoundSim(w: World, s: Stmt, st: State, h: nat, g: Graph, c: Conf, fuel: nat)
    returns (n: nat, c': Conf)
    requires s.Loop? && s.step.Some? && Scoped(s, false)
    requires st.cur < h && h + 3 == |st.blocks| && st.blocks[h] == st.blocks[h + 1] == [] && st.loop.Some?
    requires c.At? && AtStart(c, h, c.store) && Within(EmitFor(s, st, h).blocks, g)
    ensures c' == Steps(w, g, c, n) && n > 0
    ensures var (v, s1) := EvalExpr(w, s.cond, c.store); var r := Exec(w, false, s.body, s1, fuel);
      if !Truth(s.cond.WidthOf(), v) then AtStart(c', h + 2, s1)
      else if GoesOn(r) then AtStart(c', h, EvalExpr(w, s.step.value, r.store).1)
      else if r.Done? && r.outcome.Broke? then AtStart(c', h + 2, r.store)
      else Leaves(r, n, c', None, fuel)
    decreases fuel, s, 0, 0, 1
  {
    ForWithin(s, st, h, g);
    ForEmpty(s, st, h);
    n, c' := IterationSim(w, s, ForEntered(st, h), ForTested(s, st, h), h, h + 3, g, c, fuel);
    var (v, s1) := EvalExpr(w, s.cond, c.store);
    if Truth(s.cond.WidthOf(), v) && GoesOn(Exec(w, false, s.body, s1, fuel)) {
      var n2, c2 := StepSim(w, s.step.value, ForStepping(s, st, h), h, g, c');
      StepsAdd(w, g, c, n, n2);
      n, c' := n + n2, c2;
    }
  }

  /** Iterations of a loop with a step: `continue` and the end of the body lead to the step. */
  lemma {:induction false} ForSim(w: World, s: Stmt, st: State, h: nat, g: Graph, c: Conf, fuel: nat)
    returns (n: nat, c': Conf)
    requires s.Loop? && !s.doWhile && s.step.Some? && Scoped(s, false)
    requires st.cur < h && h + 3 == |st.blocks| && st.blocks[h] == st.blocks[h + 1] == [] && st.loop.Some?
    requires c.At? && AtStart(c, h, c.store) && Within(EmitFor(s, st, h).blocks, g)
    ensures c' == Steps(w, g, c, n)
    ensures SimulatesTo(Exec(w, false, s, c.store, fuel), n, c', h + 2, None, fuel)
    decreases fuel, s, 0, 1
  {
    if fuel == 0 {
      return 0, c;
    }
    n, c' := ForRoundSim(w, s, st, h, g, c, fuel);
    var (v, s1) := EvalExpr(w, s.cond, c.store);
    if Truth(s.cond.WidthOf(), v) && GoesOn(Exec(w, false, s.body, s1, fuel)) {
      var n2, c2 := ForSim(w, s, st, h, g, c', fuel - 1);
      StepsAdd(w, g, c, n, n2);
      n, c' := n + n2, c2;
    }
  }

  /** The step of a loop and the branch back to its test. */
  lemma StepSim(w: World, e: Expr, st: State, h: nat, g: Graph, c: Conf) returns (n: nat, c': Conf)
    requires AtEnd(c, st) && Within(EmitStep(e, st, h).blocks, g)
    ensures c' == Steps(w, g, c, n) && AtStart(c', h, EvalExpr(w, e, c.store).1)
  {
    FetchAppended(EmitExpr(e, st).0, Br(h), g);
    var n1, c1 := ExprSim(w, e, st, g, c);
    c' := BrSim(w, EmitExpr(e, st).0, h, g, c1);
    StepsAdd(w, g, c, n1, 1);
    n := n1 + 1;
  }

  /** Behind the branch into a loop with a step, at its test. */
  function ForEntered(st: State, h: nat): (st': State)
    requires h + 3 == |st.blocks|
  {
    MoveTo(Append(NewBlocks(st, 1), Br(h)), h)
  }

  lemma ForTestedWithin(s: Stmt, st: State, h: nat, g: Graph)
    requires s.Loop? && h + 3 == |st.blocks| && Within(ForTested(s, st, h).blocks, g)
    ensures Within(ForEntered(st, h).blocks, g)
  {
    WithinTest(s.cond, ForEntered(st, h), h + 1, h + 2, g);
  }

  lemma ForSteppingWithin(s: Stmt, st: State, h: nat, g: Graph)
    requires s.Loop? && Scoped(s, false) && h + 3 == |st.blocks| && Within(ForStepping(s, st, h).blocks, g)
    ensures Within(ForTested(s, st, h).blocks, g)
  {
    WithinArm(s.body, ForTested(s, st, h), h + 1, h + 3, g);
  }

  lemma ForWithin(s: Stmt, st: State, h: nat, g: Graph)
    requires s.Loop? && s.step.Some? && Scoped(s, false) && h + 3 == |st.blocks| && st.loop.Some?
    requires Within(EmitFor(s, st, h).blocks, g)
    ensures Within(ForEntered(st, h).blocks, g) && Within(ForTested(s, st, h).blocks, g)
    ensures Within(ForStepping(s, st, h).blocks, g)
    ensures Within(EmitStep(s.step.value, ForStepping(s, st, h), h).blocks, g)
  {
    ForFromStates(s, st, h);
    StepWithin(s.step.value, ForStepping(s, st, h), h, g);
    ForSteppingWithin(s, st, h, g);
    ForTestedWithin(s, st, h, g);
  }

  lemma StepWithin(step: Expr, st: State, h: nat, g: Graph)
    requires Within(EmitStep(step, st, h).blocks, g)
    ensures Within(st.blocks, g)
  {
    FetchAppended(EmitExpr(step, st).0, Br(h), g);
    WithinExpr(step, st, g);
  }

  lemma ForEmpty(s: Stmt, st: State, h: nat)
    requires s.Loop? && s.step.Some? && Scoped(s, false) && h + 3 == |st.blocks|
    requires st.cur < h && st.blocks[h] == st.blocks[h + 1] == []
    ensures Here(ForEntered(st, h)) == [] && ForTested(s, st, h).blocks[h + 1] == []
    ensures Here(ForStepping(s, st, h)) == []
  {
    ForTestedKeepsBlock(s, st, h, h + 1);
    ForTestedKeepsBlock(s, st, h, h + 3);
    ForSteppingKeepsBlock(s, st, h, h + 3);
  }

  lemma DoWhileWithin(s: Stmt, st: State, h: nat, g: Graph)
    requires s.Loop? && Scoped(s, false) && st.loop.Some?
    requires st.cur < h && h + 3 <= |st.blocks| && st.blocks[h] == st.blocks[h + 1] == []
    requires Within(EmitDoWhile(s, st, h).blocks, g)
    ensures var st1 := Append(st, Br(h + 1)); var st2 := MoveTo(EmitArm(s.body, st1, h + 1, h), h);
      && Within(st2.blocks, g) && Within(EmitTest(s.cond, st2, h + 1, h + 2).blocks, g)
      && st1.blocks[h + 1] == [] && Here(st2) == []
  {
    var st1 := Append(st, Br(h + 1));
    WithinTest(s.cond, MoveTo(EmitArm(s.body, st1, h + 1, h), h), h + 1, h + 2, g);
    ArmKeepsBlock(s.body, st1, h + 1, h, h);
  }

  /** One run of the body and, at its end, one test. */
  lemma {:induction false} BodyThenTestSim(w: World, s: Stmt, st1: State, st2: State, h: nat, g: Graph, c: Conf,
      fuel: nat) returns (n: nat, c': Conf)
    requires s.Loop? && Scoped(s, false) && h + 3 <= |st1.blocks| && st1.loop == Some(Targets(h, h + 2))
    requires st1.blocks[h + 1] == [] && st2 == MoveTo(EmitArm(s.body, st1, h + 1, h), h) && Here(st2) == []
    requires c.At? && AtStart(c, h + 1, c.store)
    requires Within(st2.blocks, g) && Within(EmitTest(s.cond, st2, h + 1, h + 2).blocks, g)
    ensures c' == Steps(w, g, c, n)
    ensures var r := Exec(w, false, s.body, c.store, fuel);
      if GoesOn(r) then
        var (v, s1) := EvalExpr(w, s.cond, r.store);
        n > 0 && AtStart(c', if Truth(s.cond.WidthOf(), v) then h + 1 else h + 2, s1)
      else if r.Done? && r.outcome.Broke? then AtStart(c', h + 2, r.store)
      else Leaves(r, n, c', None, fuel)
    decreases fuel, s, 0, 0
  {
    n, c' := ArmSim(w, s.body, st1, h + 1, h, g, c, fuel);
    if GoesOn(Exec(w, false, s.body, c.store, fuel)) {
      var n2, c2 := TestSim(w, s.cond, st2, h + 1, h + 2, g, c');
      StepsAdd(w, g, c, n, n2);
      n, c' := n + n2, c2;
    }
  }

  /** Iterations of a do-while loop, from its body block. */
  lemma {:induction false} DoWhileSim(w: World, s: Stmt, st: State, h: nat, g: Graph, c: Conf, fuel: nat)
    returns (n: nat, c': Conf)
    requires s.Loop? && s.doWhile && Scoped(s, false)
    requires st.cur < h && h + 3 <= |st.blocks| && st.blocks[h] == st.blocks[h + 1] == []
    requires st.loop == Some(Targets(h, h + 2))
    requires c.At? && AtStart(c, h + 1, c.store) && Within(EmitDoWhile(s, st, h).blocks, g)
    ensures c' == Steps(w, g, c, n)
    ensures SimulatesTo(Exec(w, false, s, c.store, fuel), n, c', h + 2, None, fuel)
    decreases fuel, s, 0, 1
  {
    if fuel == 0 {
      return 0, c;
    }
    var st1 := Append(st, Br(h + 1));
    var st2 := MoveTo(EmitArm(s.body, st1, h + 1, h), h);
    DoWhileWithin(s, st, h, g);
    n, c' := BodyThenTestSim(w, s, st1, st2, h, g, c, fuel);
    var r := Exec(w, false, s.body, c.store, fuel);
    if GoesOn(r) && c'.block == h + 1 {
      var n2, c2 := DoWhileSim(w, s, st, h, g, c', fuel - 1);
      StepsAdd(w, g, c, n, n2);
      n, c' := n + n2, c2;
    }
  }

  lemma {:induction false} LoopSim(w: World, s: Stmt, st: State, g: Graph, c: Conf, fuel: nat)
    returns (n: nat, c': Conf)
    requires s.Loop? && Scoped(s, st.loop.Some?)
    requires AtEnd(c, st) && Within(EmitLoop(s, st).blocks, g)
    ensures c' == Steps(w, g, c, n)
    ensures Simulates(Exec(w, false, s, c.store, fuel), n, c', EmitLoop(s, st), st.loop, fuel)
    decreases fuel, s, 0, 3
  {
    var h := |st.blocks|;
    LoopEndsEmpty(s, st);
    n, c' := LayoutSim(w, s, InLoop(NewBlocks(st, 3), h, h + 2), h, g, c, fuel);
  }

  lemma {:induction false} LayoutSim(w: World, s: Stmt, st: State, h: nat, g: Graph, c: Conf, fuel: nat)
    returns (n: nat, c': Conf)
    requires s.Loop? && Scoped(s, false) && st.loop == Some(Targets(h, h + 2))
    requires st.cur < h && h + 3 == |st.blocks| && st.blocks[h] == st.blocks[h + 1] == []
    requires AtEnd(c, st) && Within(EmitLayout(s, st, h).blocks, g)
    ensures c' == Steps(w, g, c, n)
    ensures SimulatesTo(Exec(w, false, s, c.store, fuel), n, c', h + 2, None, fuel)
    decreases fuel, s, 0, 2
  {
    var c1 := LoopEntry(w, s, st, h, g, c);
    var n2, c2;
    if s.doWhile {
      n2, c2 := DoWhileSim(w, s, st, h, g, c1, fuel);
    } else if s.step.Some? {
      n2, c2 := ForSim(w, s, st, h, g, c1, fuel);
    } else {
      n2, c2 := WhileSim(w, s, st, h, g, c1, fuel);
    }
    StepsAdd(w, g, c, 1, n2);
    n, c' := 1 + n2, c2;
  }

  /** The branch into a loop: to its body block if it is a do-while, else to its test block. */
  lemma LoopEntry(w: World, s: Stmt, st: State, h: nat, g: Graph, c: Conf) returns (c': Conf)
    requires s.Loop? && Scoped(s, false) && st.loop.Some? && h + 3 == |st.blocks| && AtEnd(c, st)
    requires Within(EmitLayout(s, st, h).blocks, g)
    ensures c' == Steps(w, g, c, 1) && AtStart(c', if s.doWhile then h + 1 else h, c.store)
  {
    if s.doWhile {
      var st1 := Append(st, Br(h + 1));
      var st2 := MoveTo(EmitArm(s.body, st1, h + 1, h), h);
      assert EmitLayout(s, st, h) == MoveTo(EmitTest(s.cond, st2, h + 1, h + 2), h + 2);
      WithinTest(s.cond, st2, h + 1, h + 2, g);
      WithinArm(s.body, st1, h + 1, h, g);
      c' := BrSim(w, st, h + 1, g, c);
    } else if s.step.Some? {
      ForWithin(s, st, h, g);
      c' := BrSim(w, NewBlocks(st, 1), h, g, c);
    } else {
      var st1 := MoveTo(Append(st, Br(h)), h);
      assert EmitLayout(s, st, h) == MoveTo(EmitArm(s.body, EmitHeader(s.cond, st, h), h + 1, h), h + 2);
      WithinArm(s.body, EmitHeader(s.cond, st, h), h + 1, h, g);
      WithinTest(s.cond, st1, h + 1, h + 2, g);
      c' := BrSim(w, st, h, g, c);
    }
  }

  // The main theorem

  const ENTRY := 0

  function StartConf(s: Store): Conf {
    At(ENTRY, 0, ENTRY, map[], s)
  }

  lemma FunctionWithin(kind: FuncKind, body: Stmt)
    requires Scoped(body, false)
    ensures var st0: State := BuilderState([[Br(1)], []], 1, None, 0); var st1 := EmitStmt(body, st0);
      var g := EmitFunction(kind, body).blocks;
      && Within(g, g) && Within(st1.blocks, g) && Within(Append(BuilderState([[], []], 0, None, 0), Br(1)).blocks, g)
      && (!Terminated(st1) ==>
            && st1.cur < |g| && |Here(st1)| < |g[st1.cur]|
            && g[st1.cur][|Here(st1)|] == Ret(ClosingValue(kind)))
  {
    var st0: State := BuilderState([[Br(1)], []], 1, None, 0);
    var st1 := EmitStmt(body, st0);
    var g := EmitFunction(kind, body).blocks;
    forall i: nat
      ensures ContinuedAt(g, g, i)
    {
    }
    assert Within(g, g);
    if !Terminated(st1) {
      FetchAppended(st1, Ret(ClosingValue(kind)), g);
    }
    WithinStmt(body, st0, g);
    var start: State := BuilderState([[], []], 0, None, 0);
    assert Here(start) + [Br(1)] == [Br(1)];
    assert Append(start, Br(1)).blocks == st0.blocks;
  }

  lemma ClosingSim(w: World, kind: FuncKind, g: Graph, c: Conf)
    requires c.At? && c.block < |g| && c.pc < |g[c.block]| && g[c.block][c.pc] == Ret(ClosingValue(kind))
    ensures Steps(w, g, c, 1) == Halt(FallOff(w, kind), c.store)
  {
    StepOne(w, g, c);
  }

  /** One run of the body, as long as its fuel lasts. */
  lemma FunctionSim(w: World, kind: FuncKind, body: Stmt, s: Store, fuel: nat) returns (n: nat)
    requires Scoped(body, false)
    ensures var c := Steps(w, EmitFunction(kind, body).blocks, StartConf(s), n);
      match ExecFunction(w, false, kind, body, s, fuel)
      case Some((v, s')) => c == Halt(v, s')
      case None => c.At? && fuel <= n
  {
    var st0: State := BuilderState([[Br(1)], []], 1, None, 0);
    var st1 := EmitStmt(body, st0);
    var st2 := EmitFunction(kind, body);
    var g := st2.blocks;
    FunctionWithin(kind, body);
    var c1 := BrSim(w, BuilderState([[], []], 0, None, 0), 1, g, StartConf(s));
    var n1, c2 := StmtSim(w, body, st0, g, c1, fuel);
    StepsAdd(w, g, StartConf(s), 1, n1);
    n := 1 + n1;
    if EndsNormally(Exec(w, false, body, s, fuel)) {
      NormalEndOpen(w, body, st0, s, fuel);
      ClosingSim(w, kind, g, c2);
      StepsAdd(w, g, StartConf(s), n, 1);
      n := n + 1;
    }
  }

  /** The block graph of `body`, started in `s`, halts with this result and store. */
  ghost predicate Halts(w: World, kind: FuncKind, body: Stmt, s: Store, v: Option<int>, s': Store)
    requires Scoped(body, false)
  {
    exists n: nat :: Steps(w, EmitFunction(kind, body).blocks, StartConf(s), n) == Halt(v, s')
  }

  /** The structured program, started in `s`, ends with this result and store. */
  ghost predicate Runs(w: World, exact: bool, kind: FuncKind, body: Stmt, s: Store, v: Option<int>, s': Store) {
    exists fuel: nat :: ExecFunction(w, exact, kind, body, s, fuel) == Some((v, s'))
  }

  /**
   The block graph of a function halts with result `v` and store `s'` exactly when the structured
   program does; in particular it runs for ever exactly when the program does. `false`: conditions
   kept in a byte are tested by their lowest bit.
   */
  lemma LoweringPreservesMeaning(w: World, kind: FuncKind, body: Stmt, s: Store, v: Option<int>, s': Store)
    requires Scoped(body, false)
    ensures Halts(w, kind, body, s, v, s') <==> Runs(w, false, kind, body, s, v, s')
  {
    if Halts(w, kind, body, s, v, s') {
      HaltsOnlyIfRuns(w, kind, body, s, v, s');
    }
    if fuel: nat :| ExecFunction(w, false, kind, body, s, fuel) == Some((v, s')) {
      var n := FunctionSim(w, kind, body, s, fuel);
    }
  }

  lemma HaltsOnlyIfRuns(w: World, kind: FuncKind, body: Stmt, s: Store, v: Option<int>, s': Store)
    requires Scoped(body, false) && Halts(w, kind, body, s, v, s')
    ensures Runs(w, false, kind, body, s, v, s')
  {
    var g := EmitFunction(kind, body).blocks;
    var n: nat :| Steps(w, g, StartConf(s), n) == Halt(v, s');
    var m := FunctionSim(w, kind, body, s, n + 1);
    if n <= m {
      HaltedStays(w, g, StartConf(s), n, m);
    } else {
      HaltedStays(w, g, StartConf(s), m, n);
    }
    assert ExecFunction(w, false, kind, body, s, n + 1) == Some((v, s'));
  }

  /** The machine never gets stuck: it halts or is still at some instruction. */
  lemma LoweredCodeNeverStuck(w: World, kind: FuncKind, body: Stmt, s: Store, n: nat)
    requires Scoped(body, false)
    ensures !Steps(w, EmitFunction(kind, body).blocks, StartConf(s), n).Stuck?
  {
    var g := EmitFunction(kind, body).blocks;
    var m := FunctionSim(w, kind, body, s, n + 1);
    if Steps(w, g, StartConf(s), n).Stuck? {
      if n <= m {
        StepsAdd(w, g, StartConf(s), n, m - n);
        StoppedStays(w, g, Stuck, m - n);
      } else {
        HaltedStays(w, g, StartConf(s), m, n);
      }
    }
  }

  /** A function with nothing in its body: a procedure returns nothing, a constructor the object, and any other
      function zero. */
  lemma EmptyBodyReturns(w: World, kind: FuncKind, body: Stmt, s: Store, v: Option<int>)
    requires body == Block([]) && Scoped(body, false)
    ensures Halts(w, kind, body, s, v, s)
      <==> v == match kind
                case Procedure => None
                case Constructor => Some(w.self)
                case ValueFunction => Some(0)
  {
    LoweringPreservesMeaning(w, kind, body, s, v, s);
    forall fuel: nat
      ensures Exec(w, false, body, s, fuel) == Done(Normal, s)
    {
      assert ExecSeq(w, false, [], s, fuel) == Done(Normal, s);
    }
    assert ExecFunction(w, false, kind, body, s, 0) == Some((FallOff(w, kind), s));
  }
}
