/** What an emission leaves alone: it only appends to the insertion block and adds new blocks. */
module LoweringFrame {
  import opened Wrappers
  import opened Ir
  import opened BlockGraph
  import opened Lowering

  /** `st'` comes from `base` by appending to its insertion block and by adding and filling new blocks. */
  ghost predicate Grows(base: State, st': State) {
    && |base.blocks| <= |st'.blocks|
    && base.next <= st'.next
    && (st'.cur == base.cur || |base.blocks| <= st'.cur)
    && Here(base) <= st'.blocks[base.cur]
    && forall i :: 0 <= i < |base.blocks| && i != base.cur ==> st'.blocks[i] == base.blocks[i]
  }

  lemma GrowsTransitive(a: State, b: State, c: State)
    requires Grows(a, b) && Grows(b, c)
    ensures Grows(a, c)
  {
    assert b.blocks[a.cur] <= c.blocks[a.cur];
  }

  lemma GrowsByExpr(base: State, e: Expr, st: State)
    requires Grows(base, st)
    ensures Grows(base, EmitExpr(e, st).0)
  {
    ExprGrows(e, st);
    GrowsTransitive(base, st, EmitExpr(e, st).0);
  }

  lemma GrowsByStmt(base: State, s: Stmt, st: State)
    requires Scoped(s, st.loop.Some?) && Grows(base, st)
    ensures Grows(base, EmitStmt(s, st))
    decreases s, 2
  {
    StmtGrows(s, st);
    GrowsTransitive(base, st, EmitStmt(s, st));
  }

  lemma GrowsByTest(base: State, cond: Expr, st: State, thn: nat, els: nat)
    requires Grows(base, st)
    ensures Grows(base, EmitTest(cond, st, thn, els))
  {
    GrowsByExpr(base, cond, st);
  }

  lemma GrowsByArm(base: State, s: Stmt, st: State, b: nat, target: nat)
    requires Scoped(s, st.loop.Some?) && |base.blocks| <= b < |st.blocks|
    requires Grows(base, MoveTo(st, b))
    ensures Grows(base, EmitArm(s, st, b, target))
    decreases s, 3
  {
    GrowsByStmt(base, s, MoveTo(st, b));
  }

  lemma {:induction false} WidthKept(e: Expr, st: State)
    ensures OperandWidth(EmitExpr(e, st).1) == e.WidthOf()
    decreases e
  {
    if e.CastToBool? {
      WidthKept(e.arg, st);
    }
  }

  lemma {:induction false} ExprGrows(e: Expr, st: State)
    ensures Grows(st, EmitExpr(e, st).0)
    decreases e, 1
  {
    match e
    case Const(_, _) =>
    case Load(_, _) =>
    case Call(_, _, args) => ArgsGrow(args, st);
    case Arith(_, _, _, _) => ArithGrows(e, st);
    case And(_, _) => ShortCircuitGrows(e, st);
    case Or(_, _) => ShortCircuitGrows(e, st);
    case Not(x) => ExprGrows(x, st);
    case CastToBool(x) => ExprGrows(x, st);
  }

  lemma {:induction false} ArithGrows(e: Expr, st: State)
    requires e.Arith?
    ensures Grows(st, EmitExpr(e, st).0)
    decreases e, 0
  {
    var first, second := if e.left.Load? then e.right else e.left, if e.left.Load? then e.left else e.right;
    var st1 := EmitExpr(first, st).0;
    ExprGrows(first, st);
    ExprGrows(second, st1);
    GrowsTransitive(st, st1, EmitExpr(second, st1).0);
  }

  lemma {:induction false} ShortCircuitGrows(e: Expr, st: State)
    requires e.And? || e.Or?
    ensures Grows(st, EmitExpr(e, st).0)
    decreases e, 0
  {
    var (st1, a) := EmitExpr(e.left, st);
    ExprGrows(e.left, st);
    RightGrows(e.And?, e.right, st1, a);
    GrowsTransitive(st, st1, EmitExpr(e, st).0);
  }

  lemma ForkGrows(isAnd: bool, st: State, left: Operand)
    ensures Grows(st, EmitFork(isAnd, st, left))
    ensures EmitFork(isAnd, st, left).blocks[|st.blocks|] == []
    ensures EmitFork(isAnd, st, left).blocks[|st.blocks| + 1] == []
  {
  }

  lemma JoinGrows(isAnd: bool, st: State, right: Operand, from: nat, join: nat)
    requires join < |st.blocks| && join != st.cur
    ensures var st' := EmitJoin(isAnd, st, right, from, join).0;
      st'.cur == join && st.next <= st'.next
      && Here(st) <= st'.blocks[st.cur]
      && st.blocks[join] <= st'.blocks[join]
      && forall i :: 0 <= i < |st.blocks| && i != st.cur && i != join ==> st'.blocks[i] == st.blocks[i]
  {
  }

  lemma {:induction false} RightGrows(isAnd: bool, r: Expr, st: State, left: Operand)
    ensures Grows(st, EmitRight(isAnd, r, st, left).0)
    decreases r, 2
  {
    var st1 := EmitFork(isAnd, st, left);
    ForkGrows(isAnd, st, left);
    ExprGrows(r, st1);
    var (st2, b) := EmitExpr(r, st1);
    GrowsTransitive(st, st1, st2);
    JoinGrows(isAnd, st2, b, st.cur, |st.blocks| + 1);
  }

  lemma {:induction false} ArgsGrow(es: seq<Expr>, st: State)
    ensures Grows(st, EmitArgs(es, st).0)
    decreases es, 0
  {
    if es != [] {
      ExprGrows(es[0], st);
      ArgsGrow(es[1..], EmitExpr(es[0], st).0);
      GrowsTransitive(st, EmitExpr(es[0], st).0, EmitArgs(es, st).0);
    }
  }

  /** For a block that is not the insertion block: an expression leaves it alone and does not end in it. */
  lemma ExprKeepsBlock(e: Expr, st: State, i: nat)
    requires i < |st.blocks| && i != st.cur
    ensures EmitExpr(e, st).0.blocks[i] == st.blocks[i] && EmitExpr(e, st).0.cur != i
    ensures st.next <= EmitExpr(e, st).0.next
  {
    ExprGrows(e, st);
  }

  lemma {:induction false} StmtGrows(s: Stmt, st: State)
    requires Scoped(s, st.loop.Some?)
    ensures Grows(st, EmitStmt(s, st))
    decreases s, 1
  {
    match s
    case Block(stmts) => SeqGrows(stmts, st);
    case Eval(e) => ExprGrows(e, st);
    case Assign(_, e) => ExprGrows(e, st);
    case If(_, _, _) => IfGrows(s, st);
    case Loop(_, _, _, _) => LoopGrows(s, st);
    case Break =>
    case Continue =>
    case Return(None) =>
    case Return(Some(e)) => ExprGrows(e, st);
  }

  lemma {:induction false} IfGrows(s: Stmt, st: State)
    requires s.If? && Scoped(s, st.loop.Some?)
    ensures Grows(st, EmitIf(s, st))
    decreases s, 0, 1
  {
    ThenGrows(s, st);
    GrowsByElse(st, s, EmitThen(s, st), |st.blocks|);
  }

  lemma {:induction false} ThenGrows(s: Stmt, st: State)
    requires s.If? && Scoped(s, st.loop.Some?)
    ensures Grows(st, EmitThen(s, st))
    decreases s, 0, 0
  {
    var t := |st.blocks|;
    GrowsByTest(st, s.cond, NewBlocks(st, 3), t, t + 1);
    GrowsByArm(st, s.thn, EmitBranch(s.cond, st), t, t + 2);
  }

  lemma {:induction false} GrowsByElse(base: State, s: Stmt, st: State, t: nat)
    requires s.If? && Scoped(s, st.loop.Some?) && |base.blocks| <= t && t + 3 <= |st.blocks| && Grows(base, st)
    ensures Grows(base, EmitElse(s, st, t)) && t + 2 < |EmitElse(s, st, t).blocks|
    decreases s, 0, 0
  {
    if s.els.Some? {
      GrowsByArm(base, s.els.value, st, t + 1, t + 2);
    }
  }

  lemma {:induction false} LoopGrows(s: Stmt, st: State)
    requires s.Loop? && Scoped(s, st.loop.Some?)
    ensures Grows(st, EmitLoop(s, st))
    decreases s, 0, 2
  {
    var h := |st.blocks|;
    LayoutGrows(st, s, InLoop(NewBlocks(st, 3), h, h + 2), h);
  }

  lemma {:induction false} LayoutGrows(base: State, s: Stmt, st: State, h: nat)
    requires s.Loop? && Scoped(s, false) && st.loop.Some? && |base.blocks| <= h && h + 3 <= |st.blocks|
    requires Grows(base, st) && st.cur == base.cur
    ensures Grows(base, EmitLayout(s, st, h))
    decreases s, 0, 1
  {
    if s.doWhile {
      DoWhileGrows(base, s, st, h);
    } else if s.step.Some? {
      ForGrows(base, s, st, h);
    } else {
      WhileGrows(base, s, st, h);
    }
  }

  lemma {:induction false} DoWhileGrows(base: State, s: Stmt, st: State, h: nat)
    requires s.Loop? && Scoped(s, false) && st.loop.Some? && |base.blocks| <= h && h + 3 <= |st.blocks|
    requires Grows(base, st) && st.cur == base.cur
    ensures Grows(base, EmitDoWhile(s, st, h))
    decreases s, 0, 0
  {
    var st1 := Append(st, Br(h + 1));
    assert Grows(base, MoveTo(st1, h + 1));
    GrowsByArm(base, s.body, st1, h + 1, h);
    GrowsByTest(base, s.cond, MoveTo(EmitArm(s.body, st1, h + 1, h), h), h + 1, h + 2);
  }

  lemma HeaderGrows(base: State, cond: Expr, st: State, h: nat)
    requires |base.blocks| <= h < |st.blocks| && Grows(base, st) && st.cur == base.cur
    ensures Grows(base, EmitHeader(cond, st, h))
  {
    GrowsByTest(base, cond, MoveTo(Append(st, Br(h)), h), h + 1, h + 2);
  }

  lemma {:induction false} ForGrows(base: State, s: Stmt, st: State, h: nat)
    requires s.Loop? && s.step.Some? && Scoped(s, false) && st.loop.Some? && |base.blocks| <= h && h + 3 <= |st.blocks|
    requires Grows(base, st) && st.cur == base.cur
    ensures Grows(base, EmitFor(s, st, h))
    decreases s, 0, 0
  {
    var forCond := |st.blocks|;
    assert Grows(base, NewBlocks(st, 1));
    HeaderGrows(base, s.cond, NewBlocks(st, 1), h);
    var st1 := InLoop(EmitHeader(s.cond, NewBlocks(st, 1), h), forCond, h + 2);
    assert Grows(base, MoveTo(st1, h + 1));
    GrowsByArm(base, s.body, st1, h + 1, forCond);
    var st2 := MoveTo(EmitArm(s.body, st1, h + 1, forCond), forCond);
    GrowsByExpr(base, s.step.value, st2);
  }

  lemma {:induction false} WhileGrows(base: State, s: Stmt, st: State, h: nat)
    requires s.Loop? && Scoped(s, false) && st.loop.Some? && |base.blocks| <= h && h + 3 <= |st.blocks|
    requires Grows(base, st) && st.cur == base.cur
    ensures Grows(base, EmitWhile(s, st, h))
    decreases s, 0, 0
  {
    HeaderGrows(base, s.cond, st, h);
    GrowsByArm(base, s.body, EmitHeader(s.cond, st, h), h + 1, h);
  }

  lemma {:induction false} SeqGrows(stmts: seq<Stmt>, st: State)
    requires forall x | x in stmts :: Scoped(x, st.loop.Some?)
    ensures Grows(st, EmitSeq(stmts, st))
    decreases stmts, 0
  {
    if stmts != [] {
      StmtGrows(stmts[0], st);
      SeqGrows(stmts[1..], EmitStmt(stmts[0], st));
      GrowsTransitive(st, EmitStmt(stmts[0], st), EmitSeq(stmts, st));
    }
  }

  lemma TestKeepsBlock(cond: Expr, st: State, thn: nat, els: nat, i: nat)
    requires i < |st.blocks| && i != st.cur
    ensures EmitTest(cond, st, thn, els).blocks[i] == st.blocks[i]
  {
    ExprKeepsBlock(cond, st, i);
  }

  lemma ArmKeepsBlock(s: Stmt, st: State, b: nat, target: nat, i: nat)
    requires Scoped(s, st.loop.Some?) && b < |st.blocks| && i < |st.blocks| && i != b
    ensures EmitArm(s, st, b, target).blocks[i] == st.blocks[i]
  {
    StmtGrows(s, MoveTo(st, b));
  }

  lemma ElseKeepsBlock(s: Stmt, st: State, t: nat, i: nat)
    requires s.If? && Scoped(s, st.loop.Some?) && t + 1 < |st.blocks| && i < |st.blocks| && i != t + 1
    ensures EmitElse(s, st, t).blocks[i] == st.blocks[i]
  {
    if s.els.Some? {
      ArmKeepsBlock(s.els.value, st, t + 1, t + 2, i);
    }
  }

  lemma BranchKeepsBlock(cond: Expr, st: State, i: nat)
    requires i < |st.blocks| + 3 && i != st.cur
    ensures EmitBranch(cond, st).blocks[i] == if i < |st.blocks| then st.blocks[i] else []
  {
    TestKeepsBlock(cond, NewBlocks(st, 3), |st.blocks|, |st.blocks| + 1, i);
  }

  lemma ThenKeepsBlock(s: Stmt, st: State, i: nat)
    requires s.If? && Scoped(s, st.loop.Some?)
    requires i < |st.blocks| + 3 && i != st.cur && i != |st.blocks|
    ensures EmitThen(s, st).blocks[i] == if i < |st.blocks| then st.blocks[i] else []
  {
    BranchKeepsBlock(s.cond, st, i);
    ArmKeepsBlock(s.thn, EmitBranch(s.cond, st), |st.blocks|, |st.blocks| + 2, i);
  }

  /** The block an `if` continues in is still empty. */
  lemma IfEndsEmpty(s: Stmt, st: State)
    requires s.If? && Scoped(s, st.loop.Some?)
    ensures Here(EmitIf(s, st)) == []
  {
    ThenKeepsBlock(s, st, |st.blocks| + 2);
    ElseKeepsBlock(s, EmitThen(s, st), |st.blocks|, |st.blocks| + 2);
  }

  /** A block outside the loop, or the block after it, is not touched once the loop is entered. */
  lemma LayoutKeepsBlock(s: Stmt, st: State, h: nat, i: nat)
    requires s.Loop? && Scoped(s, false) && st.loop.Some? && st.cur < h && h + 3 <= |st.blocks|
    requires (i < h && i != st.cur) || i == h + 2
    ensures EmitLayout(s, st, h).blocks[i] == st.blocks[i]
  {
    if s.doWhile {
      DoWhileKeepsBlock(s, st, h, i);
    } else if s.step.Some? {
      ForKeepsBlock(s, st, h, i);
    } else {
      HeaderKeepsBlock(s.cond, st, h, i);
      ArmKeepsBlock(s.body, EmitHeader(s.cond, st, h), h + 1, h, i);
    }
  }

  lemma HeaderKeepsBlock(cond: Expr, st: State, h: nat, i: nat)
    requires h < |st.blocks| && i < |st.blocks| && i != st.cur && i != h
    ensures EmitHeader(cond, st, h).blocks[i] == st.blocks[i]
  {
    TestKeepsBlock(cond, MoveTo(Append(st, Br(h)), h), h + 1, h + 2, i);
  }

  lemma DoWhileKeepsBlock(s: Stmt, st: State, h: nat, i: nat)
    requires s.Loop? && Scoped(s, false) && st.loop.Some? && h + 3 <= |st.blocks|
    requires i < |st.blocks| && i != st.cur && i != h && i != h + 1
    ensures EmitDoWhile(s, st, h).blocks[i] == st.blocks[i]
  {
    var st1 := Append(st, Br(h + 1));
    ArmKeepsBlock(s.body, st1, h + 1, h, i);
    TestKeepsBlock(s.cond, MoveTo(EmitArm(s.body, st1, h + 1, h), h), h + 1, h + 2, i);
  }

  lemma ForKeepsBlock(s: Stmt, st: State, h: nat, i: nat)
    requires s.Loop? && s.step.Some? && Scoped(s, false) && st.loop.Some? && h + 3 <= |st.blocks|
    requires i < |st.blocks| && i != st.cur && i != h && i != h + 1
    ensures EmitFor(s, st, h).blocks[i] == st.blocks[i]
  {
    var forCond := |st.blocks|;
    var st1 := InLoop(EmitHeader(s.cond, NewBlocks(st, 1), h), forCond, h + 2);
    HeaderKeepsBlock(s.cond, NewBlocks(st, 1), h, i);
    ArmKeepsBlock(s.body, st1, h + 1, forCond, i);
    ExprKeepsBlock(s.step.value, MoveTo(EmitArm(s.body, st1, h + 1, forCond), forCond), i);
  }

  /** The block after a loop is still empty. */
  lemma LoopEndsEmpty(s: Stmt, st: State)
    requires s.Loop? && Scoped(s, st.loop.Some?)
    ensures Here(EmitLoop(s, st)) == []
  {
    var h := |st.blocks|;
    LayoutKeepsBlock(s, InLoop(NewBlocks(st, 3), h, h + 2), h, h + 2);
  }

  // The states of the layout with a step

  /** Behind the test of a loop with a step, `continue` leading to the step. */
  function ForTested(s: Stmt, st: State, h: nat): (st': State)
    requires s.Loop? && h + 3 == |st.blocks|
    ensures h + 4 <= |st'.blocks| && st'.loop == Some(Targets(h + 3, h + 2))
  {
    InLoop(EmitHeader(s.cond, NewBlocks(st, 1), h), h + 3, h + 2)
  }

  /** Behind its body, at the start of the step. */
  function ForStepping(s: Stmt, st: State, h: nat): (st': State)
    requires s.Loop? && Scoped(s, false) && h + 3 == |st.blocks|
    ensures h + 4 <= |st'.blocks| && st'.cur == h + 3
  {
    MoveTo(EmitArm(s.body, ForTested(s, st, h), h + 1, h + 3), h + 3)
  }

  lemma ForFromStates(s: Stmt, st: State, h: nat)
    requires s.Loop? && s.step.Some? && Scoped(s, false) && st.loop.Some? && h + 3 == |st.blocks|
    ensures EmitFor(s, st, h) == MoveTo(EmitStep(s.step.value, ForStepping(s, st, h), h), h + 2)
  {
  }

  lemma ForTestedKeepsBlock(s: Stmt, st: State, h: nat, i: nat)
    requires s.Loop? && h + 3 == |st.blocks| && i <= h + 3 && i != h && i != st.cur
    ensures ForTested(s, st, h).blocks[i] == NewBlocks(st, 1).blocks[i]
  {
    TestKeepsBlock(s.cond, MoveTo(Append(NewBlocks(st, 1), Br(h)), h), h + 1, h + 2, i);
  }

  lemma ForSteppingKeepsBlock(s: Stmt, st: State, h: nat, i: nat)
    requires s.Loop? && Scoped(s, false) && h + 3 == |st.blocks| && i <= h + 3 && i != h + 1
    ensures ForStepping(s, st, h).blocks[i] == ForTested(s, st, h).blocks[i]
  {
    ArmKeepsBlock(s.body, ForTested(s, st, h), h + 1, h + 3, i);
  }
}
