/**
 Which function bodies give blocks the LLVM verifier accepts: every block has one terminator, at its
 end. `buildBlock` goes on emitting behind a `break`, `continue` or `return`, so not all do.
 */
module GraphShape {
  import opened Wrappers
  import opened Ir
  import opened BlockGraph
  import opened Lowering
  import opened LoweringFrame

  ghost predicate OpenBlock(code: Code) {
    forall k :: 0 <= k < |code| ==> !code[k].IsTerminator()
  }

  /** Exactly one terminator, and nothing behind it. */
  ghost predicate ClosedBlock(code: Code) {
    && code != [] && code[|code| - 1].IsTerminator()
    && forall k :: 0 <= k < |code| - 1 ==> !code[k].IsTerminator()
  }

  /** Something stands behind a terminator. */
  ghost predicate BrokenBlock(code: Code) {
    exists k :: 0 <= k < |code| - 1 && code[k].IsTerminator()
  }

  /** A statement behind which control never continues in the same block. */
  predicate Ends(s: Stmt)
    decreases s, 1
  {
    match s
    case Block(stmts) => EndsSeq(stmts)
    case Break => true
    case Continue => true
    case Return(_) => true
    case _ => false
  }

  predicate EndsSeq(stmts: seq<Stmt>)
    decreases stmts, 0
  {
    stmts != [] && (Ends(stmts[0]) || EndsSeq(stmts[1..]))
  }

  /** An expression for which no instruction is emitted. */
  predicate EmitsNothing(e: Expr) {
    e.Const? || (e.CastToBool? && e.arg.WidthOf() == I8 && EmitsNothing(e.arg))
  }

  /** A statement for which no instruction is emitted. */
  predicate Silent(s: Stmt)
    decreases s, 1
  {
    match s
    case Block(stmts) => SilentSeq(stmts)
    case Eval(e) => EmitsNothing(e)
    case _ => false
  }

  predicate SilentSeq(stmts: seq<Stmt>)
    decreases stmts, 0
  {
    stmts == [] || (Silent(stmts[0]) && SilentSeq(stmts[1..]))
  }

  /** Nothing that emits code stands behind a `break`, `continue` or `return` in the same block. */
  predicate WellFormed(s: Stmt)
    decreases s, 1
  {
    match s
    case Block(stmts) => WellFormedSeq(stmts)
    case If(_, thn, els) => WellFormed(thn) && (els.Some? ==> WellFormed(els.value))
    case Loop(_, body, _, _) => WellFormed(body)
    case _ => true
  }

  predicate WellFormedSeq(stmts: seq<Stmt>)
    decreases stmts, 0
  {
    stmts == [] || (WellFormed(stmts[0]) && WellFormedSeq(stmts[1..]) && (Ends(stmts[0]) ==> SilentSeq(stmts[1..])))
  }

  // Well-formed bodies

  ghost predicate ShapeAt(st: State, open: set<nat>, i: nat) {
    i < |st.blocks| ==> if i in open then OpenBlock(st.blocks[i]) else ClosedBlock(st.blocks[i])
  }

  /** The blocks in `open` have no terminator yet, all others are complete. */
  ghost predicate Shape(st: State, open: set<nat>) {
    forall i :: ShapeAt(st, open, i)
  }

  lemma ShapeCur(st: State, open: set<nat>)
    requires Shape(st, open)
    ensures Terminated(st) <==> st.cur !in open
    ensures if st.cur in open then OpenBlock(Here(st)) else ClosedBlock(Here(st))
  {
    assert ShapeAt(st, open, st.cur);
  }

  lemma ShapeAppend(st: State, open: set<nat>, i: Instr)
    requires Shape(st, open) && st.cur in open
    ensures Shape(Append(st, i), if i.IsTerminator() then open - {st.cur} else open)
  {
    var open' := if i.IsTerminator() then open - {st.cur} else open;
    forall k: nat
      ensures ShapeAt(Append(st, i), open', k)
    {
      assert ShapeAt(st, open, k);
    }
  }

  lemma ShapeNewBlocks(st: State, open: set<nat>, n: nat, created: set<nat>)
    requires Shape(st, open)
    requires forall k: nat :: k in created <==> |st.blocks| <= k < |st.blocks| + n
    ensures Shape(NewBlocks(st, n), open + created)
  {
    forall k: nat
      ensures ShapeAt(NewBlocks(st, n), open + created, k)
    {
      assert ShapeAt(st, open, k);
    }
  }

  /** Only blocks count: moving the insertion point or changing the loop targets keeps the shape. */
  lemma ShapeSame(st: State, st': State, open: set<nat>)
    requires Shape(st, open) && st'.blocks == st.blocks
    ensures Shape(st', open)
  {
    forall k: nat
      ensures ShapeAt(st', open, k)
    {
      assert ShapeAt(st, open, k);
    }
  }

  /** `open` after an emission that started in `from` and ended, still open, in `to`. */
  function Advance(open: set<nat>, from: nat, to: nat): set<nat> {
    open - {from} + {to}
  }

  ghost predicate InRange(open: set<nat>, st: State) {
    forall i :: i in open ==> i < |st.blocks|
  }

  lemma ShapeDefine(st: State, open: set<nat>, i: Instr)
    requires Shape(st, open) && st.cur in open && !i.IsTerminator()
    ensures Shape(Define(st, i), open)
  {
    ShapeAppend(st, open, i);
    ShapeSame(Append(st, i), Define(st, i), open);
  }

  lemma ShapeToBool(st: State, open: set<nat>, v: Operand)
    requires Shape(st, open) && st.cur in open
    ensures Shape(EmitToBool(st, v).0, open)
  {
    if OperandWidth(v) != I1 {
      ShapeDefine(st, open, NonZero(st.next, v));
    }
  }

  lemma ShapeCondBr(st: State, open: set<nat>, cond: Operand, thn: nat, els: nat)
    requires Shape(st, open) && st.cur in open
    ensures Shape(EmitCondBr(st, cond, thn, els), open - {st.cur})
  {
    if OperandWidth(cond) == I8 {
      ShapeDefine(st, open, Truncate(st.next, cond));
      ShapeAppend(Define(st, Truncate(st.next, cond)), open, CondBr(Reg(st.next, I1), thn, els));
    } else {
      ShapeAppend(st, open, CondBr(cond, thn, els));
    }
  }

  lemma {:induction false} ShapeExpr(e: Expr, st: State, open: set<nat>)
    requires Shape(st, open) && st.cur in open && InRange(open, st)
    ensures Shape(EmitExpr(e, st).0, Advance(open, st.cur, EmitExpr(e, st).0.cur))
    decreases e, 1
  {
    match e
    case Const(_, _) => assert Advance(open, st.cur, st.cur) == open;
    case Load(name, width) =>
      assert Advance(open, st.cur, st.cur) == open;
      ShapeDefine(st, open, LoadVar(st.next, width, name));
    case Call(callee, width, args) =>
      ShapeArgs(args, st, open);
      var (st1, vs) := EmitArgs(args, st);
      ShapeDefine(st1, Advance(open, st.cur, st1.cur), Invoke(st1.next, width, callee, vs));
    case Arith(op, width, l, r) =>
      var first, second := if l.Load? then r else l, if l.Load? then l else r;
      var (st1, x) := EmitExpr(first, st);
      var (st2, y) := EmitExpr(second, st1);
      ShapeExpr(first, st, open);
      var open1 := Advance(open, st.cur, st1.cur);
      ShapeExpr(second, st1, open1);
      AdvanceTwice(open, st, st1, st2.cur, first);
      ShapeDefine(st2, Advance(open, st.cur, st2.cur),
                  Binary(st2.next, width, op, if l.Load? then y else x, if l.Load? then x else y));
    case And(l, r) =>
      ShapeExpr(l, st, open);
      var (st1, a) := EmitExpr(l, st);
      AdvanceTwice(open, st, st1, EmitExpr(e, st).0.cur, l);
      ShapeRight(true, r, st1, a, Advance(open, st.cur, st1.cur));
    case Or(l, r) =>
      ShapeExpr(l, st, open);
      var (st1, a) := EmitExpr(l, st);
      AdvanceTwice(open, st, st1, EmitExpr(e, st).0.cur, l);
      ShapeRight(false, r, st1, a, Advance(open, st.cur, st1.cur));
    case Not(x) =>
      ShapeExpr(x, st, open);
      var (st1, a) := EmitExpr(x, st);
      var (st2, b) := EmitToBool(st1, a);
      ShapeToBool(st1, Advance(open, st.cur, st1.cur), a);
      ShapeDefine(st2, Advance(open, st.cur, st1.cur), IsZero(st2.next, b));
    case CastToBool(x) =>
      ShapeExpr(x, st, open);
      var (st1, a) := EmitExpr(x, st);
      ShapeDefine(st1, Advance(open, st.cur, st1.cur), IntCast(st1.next, I8, a));
  }

  lemma AdvanceTwice(open: set<nat>, st: State, st1: State, to: nat, e: Expr)
    requires st1 == EmitExpr(e, st).0 && InRange(open, st) && st.cur in open
    ensures Advance(Advance(open, st.cur, st1.cur), st1.cur, to) == Advance(open, st.cur, to)
    ensures InRange(Advance(open, st.cur, st1.cur), st1)
  {
    ExprGrows(e, st);
  }

  lemma ShapeFork(isAnd: bool, st: State, left: Operand, open: set<nat>)
    requires Shape(st, open) && st.cur in open && InRange(open, st)
    ensures Shape(EmitFork(isAnd, st, left), open - {st.cur} + {|st.blocks|, |st.blocks| + 1})
  {
    var t := |st.blocks|;
    var (st1, a) := EmitToBool(st, left);
    var st2 := NewBlocks(st1, 2);
    var thn, els := if isAnd then t else t + 1, if isAnd then t + 1 else t;
    ShapeToBool(st, open, left);
    ShapeNewBlocks(st1, open, 2, {t, t + 1});
    ShapeCondBr(st2, open + {t, t + 1}, a, thn, els);
    assert open + {t, t + 1} - {st.cur} == open - {st.cur} + {t, t + 1};
    ShapeSame(EmitCondBr(st2, a, thn, els), EmitFork(isAnd, st, left), open - {st.cur} + {t, t + 1});
  }

  lemma {:induction false} ShapeRight(isAnd: bool, r: Expr, st: State, left: Operand, open: set<nat>)
    requires Shape(st, open) && st.cur in open && InRange(open, st)
    ensures Shape(EmitRight(isAnd, r, st, left).0, Advance(open, st.cur, EmitRight(isAnd, r, st, left).0.cur))
    decreases r, 2
  {
    var t := |st.blocks|;
    var open1 := open - {st.cur} + {t, t + 1};
    var st1 := EmitFork(isAnd, st, left);
    ShapeFork(isAnd, st, left, open);
    ShapeExpr(r, st1, open1);
    ExprKeepsBlock(r, st1, t + 1);
    var (st2, b) := EmitExpr(r, st1);
    ExprGrows(r, st1);
    ShapeJoined(isAnd, st2, b, st.cur, t, open);
  }

  /** The join of a short circuit whose right operand started in block `t`. */
  lemma ShapeJoined(isAnd: bool, st: State, right: Operand, from: nat, t: nat, open: set<nat>)
    requires var open1 := open - {from} + {t, t + 1}; Shape(st, Advance(open1, t, st.cur))
    requires (forall i :: i in open ==> i < t) && t + 1 < |st.blocks| && st.cur != t + 1
    requires st.cur == t || st.cur > t + 1
    ensures var st' := EmitJoin(isAnd, st, right, from, t + 1).0; Shape(st', Advance(open, from, st'.cur))
  {
    var open2 := Advance(open - {from} + {t, t + 1}, t, st.cur);
    ShapeJoin(isAnd, st, right, from, t + 1, open2);
    assert open2 - {st.cur} == Advance(open, from, t + 1);
  }

  lemma ShapeJoin(isAnd: bool, st: State, right: Operand, from: nat, join: nat, open: set<nat>)
    requires Shape(st, open) && st.cur in open && join in open && join != st.cur && join < |st.blocks|
    ensures Shape(EmitJoin(isAnd, st, right, from, join).0, open - {st.cur})
  {
    var (st1, b) := EmitToBool(st, right);
    var st2 := Define(st1, NonZero(st1.next, b));
    var st3 := Append(st2, Br(join));
    ShapeToBool(st, open, right);
    ShapeDefine(st1, open, NonZero(st1.next, b));
    ShapeAppend(st2, open, Br(join));
    ShapeSame(st3, MoveTo(st3, join), open - {st.cur});
    ShapeDefine(MoveTo(st3, join), open - {st.cur},
                Phi(st3.next, Imm(BoolBit(!isAnd), I1), from, Reg(st1.next, I1), st1.cur));
  }

  lemma {:induction false} ShapeArgs(es: seq<Expr>, st: State, open: set<nat>)
    requires Shape(st, open) && st.cur in open && InRange(open, st)
    ensures Shape(EmitArgs(es, st).0, Advance(open, st.cur, EmitArgs(es, st).0.cur))
    decreases es, 0
  {
    if es == [] {
      assert Advance(open, st.cur, st.cur) == open;
    } else {
      var st1 := EmitExpr(es[0], st).0;
      ShapeExpr(es[0], st, open);
      AdvanceTwice(open, st, st1, EmitArgs(es, st).0.cur, es[0]);
      ShapeArgs(es[1..], st1, Advance(open, st.cur, st1.cur));
    }
  }

  lemma ShapeTest(cond: Expr, st: State, thn: nat, els: nat, open: set<nat>)
    requires Shape(st, open) && st.cur in open && InRange(open, st)
    ensures Shape(EmitTest(cond, st, thn, els), open - {st.cur})
  {
    var (st1, c) := EmitExpr(cond, st);
    ShapeExpr(cond, st, open);
    ExprGrows(cond, st);
    ShapeCondBr(st1, Advance(open, st.cur, st1.cur), c, thn, els);
    assert Advance(open, st.cur, st1.cur) - {st1.cur} == open - {st.cur};
  }

  /** `open` after a statement: its insertion block is complete if it ends, else open. */
  function After(open: set<nat>, st: State, st': State, ends: bool): set<nat> {
    if ends then open - {st.cur} else Advance(open, st.cur, st'.cur)
  }

  lemma {:induction false} ShapeStmt(s: Stmt, st: State, open: set<nat>)
    requires Scoped(s, st.loop.Some?) && WellFormed(s)
    requires Shape(st, open) && st.cur in open && InRange(open, st)
    ensures Shape(EmitStmt(s, st), After(open, st, EmitStmt(s, st), Ends(s)))
    decreases s, 1
  {
    StmtGrows(s, st);
    match s
    case Block(stmts) => ShapeSeq(stmts, st, open);
    case Eval(e) => ShapeExpr(e, st, open);
    case Assign(name, e) =>
      var (st1, v) := EmitExpr(e, st);
      ShapeExpr(e, st, open);
      ShapeAppend(st1, Advance(open, st.cur, st1.cur), StoreVar(name, v));
    case If(_, _, _) => ShapeIf(s, st, open);
    case Loop(_, _, _, _) => ShapeLoop(s, st, open);
    case Break => ShapeAppend(st, open, Br(st.loop.value.breakBlock));
    case Continue => ShapeAppend(st, open, Br(st.loop.value.continueBlock));
    case Return(None) => ShapeAppend(st, open, Ret(None));
    case Return(Some(e)) =>
      var (st1, v) := EmitExpr(e, st);
      ShapeExpr(e, st, open);
      ExprGrows(e, st);
      ShapeAppend(st1, Advance(open, st.cur, st1.cur), Ret(Some(v)));
      assert Advance(open, st.cur, st1.cur) - {st1.cur} == open - {st.cur};
  }

  lemma {:induction false} NothingEmitted(e: Expr, st: State)
    requires EmitsNothing(e)
    ensures EmitExpr(e, st).0 == st
    decreases e
  {
    if e.CastToBool? {
      NothingEmitted(e.arg, st);
      WidthKept(e.arg, st);
    }
  }

  lemma {:induction false} SilentEmitsNothing(stmts: seq<Stmt>, st: State)
    requires (forall x | x in stmts :: Scoped(x, st.loop.Some?)) && SilentSeq(stmts)
    ensures EmitSeq(stmts, st) == st && !EndsSeq(stmts) && WellFormedSeq(stmts)
    decreases stmts, 0
  {
    if stmts != [] {
      assert Scoped(stmts[0], st.loop.Some?);
      if stmts[0].Block? {
        SilentEmitsNothing(stmts[0].stmts, st);
      } else {
        NothingEmitted(stmts[0].e, st);
      }
      SilentEmitsNothing(stmts[1..], st);
    }
  }

  lemma {:induction false} ShapeSeq(stmts: seq<Stmt>, st: State, open: set<nat>)
    requires (forall x | x in stmts :: Scoped(x, st.loop.Some?)) && WellFormedSeq(stmts)
    requires Shape(st, open) && st.cur in open && InRange(open, st)
    ensures Shape(EmitSeq(stmts, st), After(open, st, EmitSeq(stmts, st), EndsSeq(stmts)))
    decreases stmts, 0
  {
    if stmts == [] {
      assert Advance(open, st.cur, st.cur) == open;
    } else {
      var st1 := EmitStmt(stmts[0], st);
      ShapeStmt(stmts[0], st, open);
      StmtGrows(stmts[0], st);
      if Ends(stmts[0]) {
        SilentEmitsNothing(stmts[1..], st1);
      } else {
        var open1 := Advance(open, st.cur, st1.cur);
        ShapeSeq(stmts[1..], st1, open1);
        assert After(open1, st1, EmitSeq(stmts, st), EndsSeq(stmts))
          == After(open, st, EmitSeq(stmts, st), EndsSeq(stmts));
      }
    }
  }

  lemma {:induction false} ShapeArm(s: Stmt, st: State, b: nat, target: nat, open: set<nat>)
    requires Scoped(s, st.loop.Some?) && WellFormed(s) && b < |st.blocks|
    requires Shape(st, open) && b in open && InRange(open, st)
    ensures Shape(EmitArm(s, st, b, target), open - {b})
    decreases s, 2
  {
    var st0 := MoveTo(st, b);
    var st1 := EmitStmt(s, st0);
    ShapeSame(st, st0, open);
    ShapeStmt(s, st0, open);
    StmtGrows(s, st0);
    var open1 := After(open, st0, st1, Ends(s));
    ShapeCur(st1, open1);
    if !Terminated(st1) {
      ShapeAppend(st1, open1, Br(target));
    }
    assert open1 - {st1.cur} == open - {b};
  }

  lemma {:induction false} ShapeIf(s: Stmt, st: State, open: set<nat>)
    requires s.If? && Scoped(s, st.loop.Some?) && WellFormed(s)
    requires Shape(st, open) && st.cur in open && InRange(open, st)
    ensures Shape(EmitIf(s, st), Advance(open, st.cur, |st.blocks| + 2))
    decreases s, 0, 1
  {
    var t := |st.blocks|;
    var st1 := EmitThen(s, st);
    var open1 := open - {st.cur} + {t + 1, t + 2};
    ShapeThen(s, st, open);
    ShapeElse(s, st1, t, open1);
    assert open1 - {t + 1} == Advance(open, st.cur, t + 2);
    ShapeSame(EmitElse(s, st1, t), EmitIf(s, st), open1 - {t + 1});
  }

  lemma ShapeBranch(cond: Expr, st: State, open: set<nat>)
    requires Shape(st, open) && st.cur in open && InRange(open, st)
    ensures var t := |st.blocks|; Shape(EmitBranch(cond, st), open - {st.cur} + {t, t + 1, t + 2})
  {
    var t := |st.blocks|;
    ShapeNewBlocks(st, open, 3, {t, t + 1, t + 2});
    ShapeTest(cond, NewBlocks(st, 3), t, t + 1, open + {t, t + 1, t + 2});
    assert open + {t, t + 1, t + 2} - {st.cur} == open - {st.cur} + {t, t + 1, t + 2};
  }

  lemma {:induction false} ShapeThen(s: Stmt, st: State, open: set<nat>)
    requires s.If? && Scoped(s, st.loop.Some?) && WellFormed(s.thn)
    requires Shape(st, open) && st.cur in open && InRange(open, st)
    ensures Shape(EmitThen(s, st), open - {st.cur} + {|st.blocks| + 1, |st.blocks| + 2})
    decreases s, 0, 0
  {
    var t := |st.blocks|;
    var open1 := open - {st.cur} + {t, t + 1, t + 2};
    ShapeBranch(s.cond, st, open);
    ShapeArm(s.thn, EmitBranch(s.cond, st), t, t + 2, open1);
    assert open1 - {t} == open - {st.cur} + {t + 1, t + 2};
  }

  lemma {:induction false} ShapeElse(s: Stmt, st: State, t: nat, open: set<nat>)
    requires s.If? && Scoped(s, st.loop.Some?) && WellFormed(s) && t + 1 < |st.blocks|
    requires Shape(st, open) && t + 1 in open && InRange(open, st)
    ensures Shape(EmitElse(s, st, t), open - {t + 1})
    decreases s, 0, 0
  {
    if s.els.Some? {
      ShapeArm(s.els.value, st, t + 1, t + 2, open);
    } else {
      ShapeSame(st, MoveTo(st, t + 1), open);
      ShapeAppend(MoveTo(st, t + 1), open, Br(t + 2));
    }
  }

  lemma {:induction false} ShapeLoop(s: Stmt, st: State, open: set<nat>)
    requires s.Loop? && Scoped(s, st.loop.Some?) && WellFormed(s)
    requires Shape(st, open) && st.cur in open && InRange(open, st)
    ensures EmitLoop(s, st).cur == |st.blocks| + 2
    ensures Shape(EmitLoop(s, st), Advance(open, st.cur, |st.blocks| + 2))
    decreases s, 0, 2
  {
    var h := |st.blocks|;
    var st0 := InLoop(NewBlocks(st, 3), h, h + 2);
    var open0 := open + {h, h + 1, h + 2};
    ShapeNewBlocks(st, open, 3, {h, h + 1, h + 2});
    ShapeSame(NewBlocks(st, 3), st0, open0);
    ShapeLayout(s, st0, h, open0);
    assert open0 - {st.cur, h, h + 1} == Advance(open, st.cur, h + 2);
    ShapeSame(EmitLayout(s, st0, h), EmitLoop(s, st), open0 - {st.cur, h, h + 1});
  }

  lemma {:induction false} ShapeLayout(s: Stmt, st: State, h: nat, open: set<nat>)
    requires s.Loop? && Scoped(s, false) && WellFormed(s) && st.loop.Some? && st.cur < h && h + 3 == |st.blocks|
    requires Shape(st, open) && {st.cur, h, h + 1} <= open && InRange(open, st)
    ensures Shape(EmitLayout(s, st, h), open - {st.cur, h, h + 1})
    decreases s, 0, 1
  {
    if s.doWhile {
      ShapeDoWhile(s, st, h, open);
    } else if s.step.Some? {
      ShapeFor(s, st, h, open);
    } else {
      ShapeWhile(s, st, h, open);
    }
  }

  lemma {:induction false} ShapeDoWhile(s: Stmt, st: State, h: nat, open: set<nat>)
    requires s.Loop? && Scoped(s, false) && WellFormed(s) && st.loop.Some? && st.cur < h && h + 3 <= |st.blocks|
    requires Shape(st, open) && {st.cur, h, h + 1} <= open && InRange(open, st)
    ensures Shape(EmitDoWhile(s, st, h), open - {st.cur, h, h + 1})
    decreases s, 0, 0
  {
    var st1 := Append(st, Br(h + 1));
    var st2 := EmitArm(s.body, st1, h + 1, h);
    var st3 := EmitTest(s.cond, MoveTo(st2, h), h + 1, h + 2);
    ShapeAppend(st, open, Br(h + 1));
    ShapeArm(s.body, st1, h + 1, h, open - {st.cur});
    var open2 := open - {st.cur} - {h + 1};
    ShapeSame(st2, MoveTo(st2, h), open2);
    ShapeTest(s.cond, MoveTo(st2, h), h + 1, h + 2, open2);
    assert open2 - {h} == open - {st.cur, h, h + 1};
    ShapeSame(st3, MoveTo(st3, h + 2), open2 - {h});
  }

  lemma ShapeHeader(cond: Expr, st: State, h: nat, open: set<nat>)
    requires h < |st.blocks| && h != st.cur && Shape(st, open) && {st.cur, h} <= open && InRange(open, st)
    ensures Shape(EmitHeader(cond, st, h), open - {st.cur, h})
  {
    var st1 := Append(st, Br(h));
    ShapeAppend(st, open, Br(h));
    ShapeSame(st1, MoveTo(st1, h), open - {st.cur});
    ShapeTest(cond, MoveTo(st1, h), h + 1, h + 2, open - {st.cur});
    assert open - {st.cur} - {h} == open - {st.cur, h};
  }

  lemma {:induction false} ShapeWhile(s: Stmt, st: State, h: nat, open: set<nat>)
    requires s.Loop? && Scoped(s, false) && WellFormed(s) && st.loop.Some? && st.cur < h && h + 3 <= |st.blocks|
    requires Shape(st, open) && {st.cur, h, h + 1} <= open && InRange(open, st)
    ensures Shape(EmitWhile(s, st, h), open - {st.cur, h, h + 1})
    decreases s, 0, 0
  {
    var st1 := EmitHeader(s.cond, st, h);
    ShapeHeader(s.cond, st, h, open);
    ShapeArm(s.body, st1, h + 1, h, open - {st.cur, h});
    var st2 := EmitArm(s.body, st1, h + 1, h);
    assert open - {st.cur, h} - {h + 1} == open - {st.cur, h, h + 1};
    ShapeSame(st2, MoveTo(st2, h + 2), open - {st.cur, h, h + 1});
  }

  lemma {:induction false} ShapeFor(s: Stmt, st: State, h: nat, open: set<nat>)
    requires s.Loop? && s.step.Some? && Scoped(s, false) && WellFormed(s) && st.loop.Some?
    requires st.cur < h && h + 3 == |st.blocks|
    requires Shape(st, open) && {st.cur, h, h + 1} <= open && InRange(open, st)
    ensures Shape(EmitFor(s, st, h), open - {st.cur, h, h + 1})
    decreases s, 0, 0
  {
    var st0 := NewBlocks(st, 1);
    var open0 := open + {h + 3};
    var st1 := EmitHeader(s.cond, st0, h);
    var st2 := InLoop(st1, h + 3, h + 2);
    var st3 := EmitArm(s.body, st2, h + 1, h + 3);
    var st4 := EmitExpr(s.step.value, MoveTo(st3, h + 3)).0;
    ShapeNewBlocks(st, open, 1, {h + 3});
    ShapeHeader(s.cond, st0, h, open0);
    ShapeSame(st1, st2, open0 - {st.cur, h});
    ShapeArm(s.body, st2, h + 1, h + 3, open0 - {st.cur, h});
    var open3 := open0 - {st.cur, h} - {h + 1};
    ShapeSame(st3, MoveTo(st3, h + 3), open3);
    ShapeExpr(s.step.value, MoveTo(st3, h + 3), open3);
    ExprGrows(s.step.value, MoveTo(st3, h + 3));
    var open4 := Advance(open3, h + 3, st4.cur);
    ShapeAppend(st4, open4, Br(h));
    assert open4 - {st4.cur} == open - {st.cur, h, h + 1};
    ShapeSame(Append(st4, Br(h)), MoveTo(Append(st4, Br(h)), h + 2), open - {st.cur, h, h + 1});
  }

  // Bodies that are not well-formed

  ghost predicate Broken(st: State) {
    exists i :: 0 <= i < |st.blocks| && BrokenBlock(st.blocks[i])
  }

  /** Code is only ever appended, so what stands behind a terminator stays there. */
  lemma BrokenStays(a: State, b: State)
    requires Broken(a) && Grows(a, b)
    ensures Broken(b)
  {
    var i :| 0 <= i < |a.blocks| && BrokenBlock(a.blocks[i]);
    var k :| 0 <= k < |a.blocks[i]| - 1 && a.blocks[i][k].IsTerminator();
    assert a.blocks[i] <= b.blocks[i];
    assert b.blocks[i][k].IsTerminator();
  }

  lemma BrokenMoved(a: State, b: State)
    requires Broken(a) && b.blocks == a.blocks
    ensures Broken(b)
  {
    var i :| 0 <= i < |a.blocks| && BrokenBlock(a.blocks[i]);
    assert BrokenBlock(b.blocks[i]);
  }

  /** What an emission appended to the insertion block of `st`. */
  ghost predicate Appended(st: State, st': State) {
    st.cur < |st'.blocks| && |Here(st)| < |st'.blocks[st.cur]|
  }

  lemma AppendedStays(st: State, st1: State, st2: State)
    requires Grows(st, st1) && Grows(st1, st2)
    ensures Appended(st, st1) ==> Appended(st, st2)
    ensures st1.cur == st.cur && Appended(st1, st2) ==> Appended(st, st2)
  {
    GrowsTransitive(st, st1, st2);
    assert st1.blocks[st.cur] <= st2.blocks[st.cur];
  }

  lemma {:induction false} ExprAppends(e: Expr, st: State)
    ensures if EmitsNothing(e) then EmitExpr(e, st).0 == st else Appended(st, EmitExpr(e, st).0)
    decreases e, 1
  {
    match e
    case Const(_, _) =>
    case Load(_, _) =>
    case Call(_, _, args) =>
      ArgsGrow(args, st);
      ArgsAppend(args, st);
      DefineAppends(st, EmitArgs(args, st).0, EmitExpr(e, st).0);
    case Arith(_, _, _, _) => ArithAppends(e, st);
    case And(_, _) => ShortCircuitAppends(e, st);
    case Or(_, _) => ShortCircuitAppends(e, st);
    case Not(x) =>
      var (st1, a) := EmitExpr(x, st);
      ExprGrows(x, st);
      ExprAppends(x, st);
      DefineAppends(st, EmitToBool(st1, a).0, EmitExpr(e, st).0);
    case CastToBool(x) =>
      var (st1, a) := EmitExpr(x, st);
      ExprGrows(x, st);
      ExprAppends(x, st);
      WidthKept(x, st);
      if x.WidthOf() != I8 {
        DefineAppends(st, st1, EmitExpr(e, st).0);
      }
  }

  lemma {:induction false} ArithAppends(e: Expr, st: State)
    requires e.Arith?
    ensures Appended(st, EmitExpr(e, st).0)
    decreases e, 0
  {
    var first, second := if e.left.Load? then e.right else e.left, if e.left.Load? then e.left else e.right;
    var st1 := EmitExpr(first, st).0;
    var st2 := EmitExpr(second, st1).0;
    ExprGrows(first, st);
    ExprGrows(second, st1);
    ExprAppends(first, st);
    ExprAppends(second, st1);
    AppendedStays(st, st1, st2);
    GrowsTransitive(st, st1, st2);
    DefineAppends(st, st2, EmitExpr(e, st).0);
  }

  lemma {:induction false} ShortCircuitAppends(e: Expr, st: State)
    requires e.And? || e.Or?
    ensures Appended(st, EmitExpr(e, st).0)
    decreases e, 0
  {
    var (st1, a) := EmitExpr(e.left, st);
    ExprGrows(e.left, st);
    ExprAppends(e.left, st);
    RightGrows(e.And?, e.right, st1, a);
    RightAppends(e.And?, e.right, st1, a);
    AppendedStays(st, st1, EmitExpr(e, st).0);
  }

  lemma DefineAppends(st: State, st1: State, st2: State)
    requires Grows(st, st1) && (st1.cur != st.cur ==> Appended(st, st1))
    requires exists i :: st2 == Define(st1, i)
    ensures Appended(st, st2)
  {
  }

  lemma {:induction false} ArgsAppend(es: seq<Expr>, st: State)
    ensures EmitArgs(es, st).0.cur != st.cur ==> Appended(st, EmitArgs(es, st).0)
    decreases es, 0
  {
    if es != [] {
      var st1 := EmitExpr(es[0], st).0;
      ExprGrows(es[0], st);
      ExprAppends(es[0], st);
      ArgsGrow(es[1..], st1);
      ArgsAppend(es[1..], st1);
      AppendedStays(st, st1, EmitArgs(es, st).0);
    }
  }

  lemma ForkAppends(isAnd: bool, st: State, left: Operand)
    ensures Appended(st, EmitFork(isAnd, st, left))
  {
  }

  lemma RightAppends(isAnd: bool, r: Expr, st: State, left: Operand)
    ensures Appended(st, EmitRight(isAnd, r, st, left).0)
  {
    var st1 := EmitFork(isAnd, st, left);
    ForkAppends(isAnd, st, left);
    ExprKeepsBlock(r, st1, st.cur);
    ExprKeepsBlock(r, st1, |st.blocks| + 1);
    var (st2, b) := EmitExpr(r, st1);
    JoinGrows(isAnd, st2, b, st.cur, |st.blocks| + 1);
  }

  lemma TestAppends(cond: Expr, st: State, thn: nat, els: nat)
    ensures Appended(st, EmitTest(cond, st, thn, els))
  {
    ExprGrows(cond, st);
    ExprAppends(cond, st);
  }

  /** Every statement that is not silent puts an instruction into the block where it starts. */
  lemma {:induction false} StmtAppends(s: Stmt, st: State)
    requires Scoped(s, st.loop.Some?)
    ensures if Silent(s) then EmitStmt(s, st) == st else Appended(st, EmitStmt(s, st))
    decreases s, 1
  {
    match s
    case Block(stmts) => SeqAppends(stmts, st);
    case Eval(e) => ExprAppends(e, st);
    case Assign(_, e) => ExprGrows(e, st); ExprAppends(e, st);
    case If(cond, thn, els) => IfAppends(s, st);
    case Loop(_, _, _, _) => LoopAppends(s, st);
    case Break =>
    case Continue =>
    case Return(None) =>
    case Return(Some(e)) => ExprGrows(e, st); ExprAppends(e, st);
  }

  lemma BranchAppends(cond: Expr, st: State)
    ensures Appended(st, EmitBranch(cond, st))
  {
    TestAppends(cond, NewBlocks(st, 3), |st.blocks|, |st.blocks| + 1);
  }

  lemma ThenAppends(s: Stmt, st: State)
    requires s.If? && Scoped(s, st.loop.Some?)
    ensures Appended(st, EmitThen(s, st))
  {
    BranchAppends(s.cond, st);
    ArmKeepsBlock(s.thn, EmitBranch(s.cond, st), |st.blocks|, |st.blocks| + 2, st.cur);
  }

  lemma IfAppends(s: Stmt, st: State)
    requires s.If? && Scoped(s, st.loop.Some?)
    ensures Appended(st, EmitIf(s, st))
  {
    ThenAppends(s, st);
    ElseKeepsBlock(s, EmitThen(s, st), |st.blocks|, st.cur);
  }

  lemma LoopAppends(s: Stmt, st: State)
    requires s.Loop? && Scoped(s, st.loop.Some?)
    ensures Appended(st, EmitLoop(s, st))
  {
    LayoutAppends(s, InLoop(NewBlocks(st, 3), |st.blocks|, |st.blocks| + 2), |st.blocks|);
  }

  lemma LayoutAppends(s: Stmt, st: State, h: nat)
    requires s.Loop? && Scoped(s, false) && st.loop.Some? && st.cur < h && h + 3 == |st.blocks|
    ensures Appended(st, EmitLayout(s, st, h))
  {
    if s.doWhile {
      DoWhileAppends(s, st, h);
    } else if s.step.Some? {
      ForAppends(s, st, h);
    } else {
      HeaderAppends(s.cond, st, h);
      ArmKeepsBlock(s.body, EmitHeader(s.cond, st, h), h + 1, h, st.cur);
    }
  }

  lemma HeaderAppends(cond: Expr, st: State, h: nat)
    requires st.cur < h < |st.blocks|
    ensures Appended(st, EmitHeader(cond, st, h))
  {
    TestKeepsBlock(cond, MoveTo(Append(st, Br(h)), h), h + 1, h + 2, st.cur);
  }

  lemma DoWhileAppends(s: Stmt, st: State, h: nat)
    requires s.Loop? && Scoped(s, false) && st.loop.Some? && st.cur < h && h + 3 <= |st.blocks|
    ensures Appended(st, EmitDoWhile(s, st, h))
  {
    var st1 := Append(st, Br(h + 1));
    ArmKeepsBlock(s.body, st1, h + 1, h, st.cur);
    TestKeepsBlock(s.cond, MoveTo(EmitArm(s.body, st1, h + 1, h), h), h + 1, h + 2, st.cur);
  }

  lemma ForTestedAppends(s: Stmt, st: State, h: nat)
    requires s.Loop? && st.cur < h && h + 3 == |st.blocks|
    ensures Appended(st, ForTested(s, st, h))
  {
    HeaderAppends(s.cond, NewBlocks(st, 1), h);
  }

  lemma ForAppends(s: Stmt, st: State, h: nat)
    requires s.Loop? && s.step.Some? && Scoped(s, false) && st.loop.Some? && st.cur < h && h + 3 == |st.blocks|
    ensures Appended(st, EmitFor(s, st, h))
  {
    ForFromStates(s, st, h);
    ForTestedAppends(s, st, h);
    ForSteppingKeepsBlock(s, st, h, st.cur);
    ExprKeepsBlock(s.step.value, ForStepping(s, st, h), st.cur);
  }

  lemma {:induction false} SeqAppends(stmts: seq<Stmt>, st: State)
    requires forall x | x in stmts :: Scoped(x, st.loop.Some?)
    ensures if SilentSeq(stmts) then EmitSeq(stmts, st) == st else Appended(st, EmitSeq(stmts, st))
    decreases stmts, 0
  {
    if stmts != [] {
      var st1 := EmitStmt(stmts[0], st);
      StmtGrows(stmts[0], st);
      StmtAppends(stmts[0], st);
      SeqGrows(stmts[1..], st1);
      SeqAppends(stmts[1..], st1);
      AppendedStays(st, st1, EmitSeq(stmts, st));
    }
  }

  /** Code behind a terminator breaks the block. */
  lemma JunkBreaks(st: State, st': State)
    requires Terminated(st) && Appended(st, st') && Grows(st, st')
    ensures Broken(st')
  {
    assert st'.blocks[st.cur][|Here(st)| - 1] == Here(st)[|Here(st)| - 1];
    assert BrokenBlock(st'.blocks[st.cur]);
  }

  lemma {:induction false} IllFormedBreaks(s: Stmt, st: State, open: set<nat>)
    requires Scoped(s, st.loop.Some?) && !WellFormed(s)
    requires Shape(st, open) && st.cur in open && InRange(open, st)
    ensures Broken(EmitStmt(s, st))
    decreases s, 1
  {
    match s
    case Block(stmts) => IllFormedSeqBreaks(stmts, st, open);
    case If(_, _, _) => IllFormedIfBreaks(s, st, open);
    case Loop(_, _, _, _) => IllFormedLoopBreaks(s, st, open);
  }

  lemma {:induction false} IllFormedSeqBreaks(stmts: seq<Stmt>, st: State, open: set<nat>)
    requires (forall x | x in stmts :: Scoped(x, st.loop.Some?)) && !WellFormedSeq(stmts)
    requires Shape(st, open) && st.cur in open && InRange(open, st)
    ensures Broken(EmitSeq(stmts, st))
    decreases stmts, 0
  {
    var st1 := EmitStmt(stmts[0], st);
    SeqGrows(stmts[1..], st1);
    StmtGrows(stmts[0], st);
    if !WellFormed(stmts[0]) {
      IllFormedBreaks(stmts[0], st, open);
      BrokenStays(st1, EmitSeq(stmts, st));
    } else {
      ShapeStmt(stmts[0], st, open);
      var open1 := After(open, st, st1, Ends(stmts[0]));
      ShapeCur(st1, open1);
      if Ends(stmts[0]) {
        if SilentSeq(stmts[1..]) {
          SilentEmitsNothing(stmts[1..], st1);
        }
        SeqAppends(stmts[1..], st1);
        JunkBreaks(st1, EmitSeq(stmts, st));
      } else {
        IllFormedSeqBreaks(stmts[1..], st1, open1);
      }
    }
  }

  lemma {:induction false} IllFormedArmBreaks(s: Stmt, st: State, b: nat, target: nat, open: set<nat>)
    requires Scoped(s, st.loop.Some?) && !WellFormed(s) && b < |st.blocks|
    requires Shape(st, open) && b in open && InRange(open, st)
    ensures Broken(EmitArm(s, st, b, target))
    decreases s, 2
  {
    var st0 := MoveTo(st, b);
    ShapeSame(st, st0, open);
    IllFormedBreaks(s, st0, open);
    BrokenStays(EmitStmt(s, st0), EmitArm(s, st, b, target));
  }

  lemma BrokenByArm(s: Stmt, st: State, b: nat, target: nat)
    requires Broken(st) && Scoped(s, st.loop.Some?) && b < |st.blocks|
    ensures Broken(EmitArm(s, st, b, target))
  {
    BrokenMoved(st, MoveTo(st, b));
    StmtGrows(s, MoveTo(st, b));
    BrokenStays(MoveTo(st, b), EmitArm(s, st, b, target));
  }

  lemma {:induction false} IllFormedIfBreaks(s: Stmt, st: State, open: set<nat>)
    requires s.If? && Scoped(s, st.loop.Some?) && !WellFormed(s)
    requires Shape(st, open) && st.cur in open && InRange(open, st)
    ensures Broken(EmitIf(s, st))
    decreases s, 0
  {
    var t := |st.blocks|;
    var st1 := EmitThen(s, st);
    if !WellFormed(s.thn) {
      ShapeBranch(s.cond, st, open);
      IllFormedArmBreaks(s.thn, EmitBranch(s.cond, st), t, t + 2, open - {st.cur} + {t, t + 1, t + 2});
      BrokenByElse(s, st1, t);
    } else {
      ShapeThen(s, st, open);
      IllFormedArmBreaks(s.els.value, st1, t + 1, t + 2, open - {st.cur} + {t + 1, t + 2});
    }
    BrokenMoved(EmitElse(s, st1, t), EmitIf(s, st));
  }

  lemma BrokenByElse(s: Stmt, st: State, t: nat)
    requires s.If? && Scoped(s, st.loop.Some?) && t + 1 < |st.blocks| && Broken(st)
    ensures Broken(EmitElse(s, st, t))
  {
    if s.els.Some? {
      BrokenByArm(s.els.value, st, t + 1, t + 2);
    } else {
      BrokenMoved(st, MoveTo(st, t + 1));
      BrokenStays(MoveTo(st, t + 1), EmitElse(s, st, t));
    }
  }

  lemma {:induction false} IllFormedLoopBreaks(s: Stmt, st: State, open: set<nat>)
    requires s.Loop? && Scoped(s, st.loop.Some?) && !WellFormed(s)
    requires Shape(st, open) && st.cur in open && InRange(open, st)
    ensures Broken(EmitLoop(s, st))
    decreases s, 0, 2
  {
    var h := |st.blocks|;
    var st0 := InLoop(NewBlocks(st, 3), h, h + 2);
    var open0 := open + {h, h + 1, h + 2};
    ShapeNewBlocks(st, open, 3, {h, h + 1, h + 2});
    ShapeSame(NewBlocks(st, 3), st0, open0);
    IllFormedLayoutBreaks(s, st0, h, open0);
    BrokenMoved(EmitLayout(s, st0, h), EmitLoop(s, st));
  }

  lemma {:induction false} IllFormedLayoutBreaks(s: Stmt, st: State, h: nat, open: set<nat>)
    requires s.Loop? && Scoped(s, false) && !WellFormed(s) && st.loop.Some? && st.cur < h && h + 3 == |st.blocks|
    requires Shape(st, open) && {st.cur, h, h + 1} <= open && InRange(open, st)
    ensures Broken(EmitLayout(s, st, h))
    decreases s, 0, 1
  {
    if s.doWhile {
      IllFormedDoWhileBreaks(s, st, h, open);
    } else if s.step.Some? {
      IllFormedForBreaks(s, st, h, open);
    } else {
      IllFormedWhileBreaks(s, st, h, open);
    }
  }

  lemma {:induction false} IllFormedDoWhileBreaks(s: Stmt, st: State, h: nat, open: set<nat>)
    requires s.Loop? && Scoped(s, false) && !WellFormed(s) && st.loop.Some? && st.cur < h && h + 3 <= |st.blocks|
    requires Shape(st, open) && {st.cur, h, h + 1} <= open && InRange(open, st)
    ensures Broken(EmitDoWhile(s, st, h))
    decreases s, 0, 0
  {
    var st1 := Append(st, Br(h + 1));
    ShapeAppend(st, open, Br(h + 1));
    IllFormedArmBreaks(s.body, st1, h + 1, h, open - {st.cur});
    var st2 := EmitArm(s.body, st1, h + 1, h);
    BrokenMoved(st2, MoveTo(st2, h));
    var st3 := EmitTest(s.cond, MoveTo(st2, h), h + 1, h + 2);
    BrokenByTest(s.cond, MoveTo(st2, h), h + 1, h + 2);
    BrokenMoved(st3, MoveTo(st3, h + 2));
  }

  lemma {:induction false} IllFormedWhileBreaks(s: Stmt, st: State, h: nat, open: set<nat>)
    requires s.Loop? && Scoped(s, false) && !WellFormed(s) && st.loop.Some? && st.cur < h && h + 3 <= |st.blocks|
    requires Shape(st, open) && {st.cur, h, h + 1} <= open && InRange(open, st)
    ensures Broken(EmitWhile(s, st, h))
    decreases s, 0, 0
  {
    var st1 := EmitHeader(s.cond, st, h);
    ShapeHeader(s.cond, st, h, open);
    IllFormedArmBreaks(s.body, st1, h + 1, h, open - {st.cur, h});
    var st2 := EmitArm(s.body, st1, h + 1, h);
    BrokenMoved(st2, MoveTo(st2, h + 2));
  }

  lemma {:induction false} IllFormedForBreaks(s: Stmt, st: State, h: nat, open: set<nat>)
    requires s.Loop? && s.step.Some? && Scoped(s, false) && !WellFormed(s) && st.loop.Some?
    requires st.cur < h && h + 3 == |st.blocks|
    requires Shape(st, open) && {st.cur, h, h + 1} <= open && InRange(open, st)
    ensures Broken(EmitFor(s, st, h))
    decreases s, 0, 0
  {
    var st0 := NewBlocks(st, 1);
    ShapeNewBlocks(st, open, 1, {h + 3});
    ShapeHeader(s.cond, st0, h, open + {h + 3});
    var st1 := EmitHeader(s.cond, st0, h);
    var st2 := InLoop(st1, h + 3, h + 2);
    var open2 := open + {h + 3} - {st.cur, h};
    ShapeSame(st1, st2, open2);
    IllFormedArmBreaks(s.body, st2, h + 1, h + 3, open2);
    var st3 := EmitArm(s.body, st2, h + 1, h + 3);
    BrokenMoved(st3, MoveTo(st3, h + 3));
    var st4 := Append(EmitExpr(s.step.value, MoveTo(st3, h + 3)).0, Br(h));
    GrowsByExpr(MoveTo(st3, h + 3), s.step.value, MoveTo(st3, h + 3));
    BrokenStays(MoveTo(st3, h + 3), st4);
    BrokenMoved(st4, MoveTo(st4, h + 2));
  }

  lemma BrokenByTest(cond: Expr, st: State, thn: nat, els: nat)
    requires Broken(st)
    ensures Broken(EmitTest(cond, st, thn, els))
  {
    ExprGrows(cond, st);
    GrowsByTest(st, cond, st, thn, els);
    BrokenStays(st, EmitTest(cond, st, thn, els));
  }

  /**
   Every block of a lowered function has exactly one terminator, at its end, if and only if nothing
   that emits code stands behind a `break`, `continue` or `return` of the same source block.
   */
  lemma BlocksCompleteIffWellFormed(kind: FuncKind, body: Stmt)
    requires Scoped(body, false)
    ensures var g := EmitFunction(kind, body).blocks;
      WellFormed(body) <==> forall i :: 0 <= i < |g| ==> ClosedBlock(g[i])
  {
    var st0: State := BuilderState([[Br(1)], []], 1, None, 0);
    var st1 := EmitStmt(body, st0);
    var st2 := EmitFunction(kind, body);
    assert Shape(st0, {1}) by {
      forall k: nat
        ensures ShapeAt(st0, {1}, k)
      {
      }
    }
    StmtGrows(body, st0);
    if WellFormed(body) {
      ShapeStmt(body, st0, {1});
      var open := if Ends(body) then {} else {st1.cur};
      assert After({1}, st0, st1, Ends(body)) == open;
      ShapeCur(st1, open);
      if !Terminated(st1) {
        ShapeAppend(st1, open, Ret(ClosingValue(kind)));
        assert open - {st1.cur} == {};
      }
      assert Shape(st2, {});
      forall i | 0 <= i < |st2.blocks|
        ensures ClosedBlock(st2.blocks[i])
      {
        assert ShapeAt(st2, {}, i);
      }
    } else {
      IllFormedBreaks(body, st0, {1});
      BrokenStays(st1, st2);
      var i :| 0 <= i < |st2.blocks| && BrokenBlock(st2.blocks[i]);
      assert !ClosedBlock(st2.blocks[i]);
    }
  }

  /** `{ return; x = 1 }`, for example: some block has code behind its terminator, or none. */
  lemma CodeBehindReturn(kind: FuncKind, body: Stmt)
    requires body == Block([Return(None), Assign("x", Const(1, Wide))])
    ensures Scoped(body, false)
    ensures var g := EmitFunction(kind, body).blocks; exists i :: 0 <= i < |g| && !ClosedBlock(g[i])
  {
    BlocksCompleteIffWellFormed(kind, body);
  }
}
